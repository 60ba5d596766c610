/** Histories made to order: runs numbered 1, 2, 3, ..., one after another, each with the
    observations given. Inputs that show a promise broken are built from these, so that
    each is one the program can meet. */
module Scripts {
  import opened Types
  import opened Route
  import opened KeyMachine
  import opened Histories

  predicate OfKey(o: Observation, key: string) { o.Key() == key && o.check in TRACKED_CHECKS }

  /** A history of one key that the program can meet: run ids grow, and every observation
      is of that key and of a check that exists. */
  ghost predicate Possible(ticks: seq<Tick>, key: string, limit: nat) {
    && Rising(ticks) && AtMost(ticks, limit)
    && forall i, j :: 0 <= i < |ticks| && 0 <= j < |ticks[i].obs| ==>
         OfKey(ticks[i].obs[j], key)
  }

  function RunEnv(n: nat): Env { Env(n, "", n) }

  function Script(runs: seq<seq<Observation>>): (ticks: seq<Tick>)
    ensures |ticks| == |runs|
    ensures forall i :: 0 <= i < |runs| ==> ticks[i] == Tick(runs[i], false, RunEnv(i + 1))
  {
    if runs == [] then []
    else Script(runs[..|runs| - 1]) + [Tick(runs[|runs| - 1], false, RunEnv(|runs|))]
  }

  predicate RunsOfKey(runs: seq<seq<Observation>>, key: string, limit: nat) {
    forall i :: 0 <= i < |runs| ==> |runs[i]| <= limit && forall j :: 0 <= j < |runs[i]| ==> OfKey(runs[i][j], key)
  }

  lemma {:induction false} ScriptIsPossible(runs: seq<seq<Observation>>, key: string, limit: nat)
    requires RunsOfKey(runs, key, limit)
    ensures Possible(Script(runs), key, limit)
  {
  }

  lemma {:induction false} ScriptSnoc(runs: seq<seq<Observation>>, run: seq<Observation>)
    ensures Script(runs + [run]) == Script(runs) + [Tick(run, false, RunEnv(|runs| + 1))]
  {
    assert (runs + [run])[..|runs|] == runs;
  }

  /** One more run with one observation is that observation's transition. */
  lemma {:induction false} OneMoreRun(cfg: Config, key: string, runs: seq<seq<Observation>>, o: Observation)
    ensures var before := ExecTicks(cfg, key, Script(runs));
            var after := Step(cfg, before.state, o, RunEnv(|runs| + 1));
            ExecTicks(cfg, key, Script(runs + [[o]])) == Outcome(after.state, before.sent + after.sent)
  {
    var t := Tick([o], false, RunEnv(|runs| + 1));
    ScriptSnoc(runs, [o]);
    ExecTicksSnoc(cfg, key, Script(runs), t);
    ExecTickUnfolds(cfg, key, ExecTicks(cfg, key, Script(runs)).state, t);
  }

  /** What one more run with one observation adds to the history. */
  lemma {:induction false} OneRunHistory(runs: seq<seq<Observation>>, o: Observation)
    ensures History(Script(runs + [[o]]))
            == History(Script(runs)) + [Seen(o, RunEnv(|runs| + 1))] + [RunEnd(|runs| + 1)]
  {
    var p, t := History(Script(runs)), Tick([o], false, RunEnv(|runs| + 1));
    var a, b := Seen(o, RunEnv(|runs| + 1)), RunEnd(|runs| + 1);
    ScriptSnoc(runs, [o]);
    HistorySnoc(Script(runs), t);
    assert EventsOf(t) == [a, b];
    assert p + [a, b] == p + [a] + [b];
  }

  function Times(o: Observation, n: nat): (runs: seq<seq<Observation>>)
    ensures |runs| == n && forall i :: 0 <= i < n ==> runs[i] == [o]
  {
    if n == 0 then [] else Times(o, n - 1) + [[o]]
  }

  lemma {:induction false} TimesSnoc(runs: seq<seq<Observation>>, o: Observation, n: nat)
    requires n > 0
    ensures runs + Times(o, n) == runs + Times(o, n - 1) + [[o]]
  {
  }

  lemma {:induction false} TimesOfKey(runs: seq<seq<Observation>>, o: Observation, n: nat, key: string, limit: nat)
    requires RunsOfKey(runs, key, limit) && OfKey(o, key) && limit >= 1
    ensures RunsOfKey(runs + Times(o, n), key, limit) && RunsOfKey(Times(o, n), key, limit)
    ensures RunsOfKey(runs + [[o]], key, limit)
  {
  }

  /** The state after a script, for short. */
  function Ends(cfg: Config, key: string, runs: seq<seq<Observation>>): Option<KeyRecord> {
    ExecTicks(cfg, key, Script(runs)).state
  }

  // ---- firing ----

  lemma {:induction false} ThresholdPositive(cfg: Config, o: Observation)
    requires cfg.Valid()
    ensures FlapSamplesFor(cfg, o.check, o.tier) >= 1
  {
  }

  predicate Damped(s: Option<KeyRecord>, n: nat) {
    if n == 0 then s.None?
    else Pending(s) && s.value.consecutiveBad == n && s.value.notifiedTargets == []
  }

  lemma {:induction false} DampOne(cfg: Config, s: Option<KeyRecord>, o: Observation, env: Env, n: nat)
    requires o.health == BAD && !o.suppressed && Damped(s, n)
    requires n + 1 < FlapSamplesFor(cfg, o.check, o.tier)
    ensures Damped(Step(cfg, s, o, env).state, n + 1)
  {
  }

  lemma {:induction false} BadsPend(cfg: Config, key: string, o: Observation, n: nat)
    requires o.health == BAD && !o.suppressed && n < FlapSamplesFor(cfg, o.check, o.tier)
    ensures Damped(Ends(cfg, key, Times(o, n)), n)
  {
    if n == 0 {
      assert Script([]) == [];
    } else {
      BadsPend(cfg, key, o, n - 1);
      DampOne(cfg, Ends(cfg, key, Times(o, n - 1)), o, RunEnv(n), n - 1);
      OneMoreRun(cfg, key, Times(o, n - 1), o);
    }
  }

  predicate JustFired(cfg: Config, s: Option<KeyRecord>, o: Observation) {
    && Firing(s) && s.value.tier == o.tier && s.value.consecutiveOK == 0 && !s.value.degradedNotified
    && s.value.notifiedTargets == Union([], RouteTargets(cfg, o.tier))
  }

  lemma {:induction false} FireOne(cfg: Config, s: Option<KeyRecord>, o: Observation, env: Env, n: nat)
    requires o.health == BAD && !o.suppressed && Damped(s, n)
    requires n + 1 == FlapSamplesFor(cfg, o.check, o.tier)
    ensures var r := Step(cfg, s, o, env);
            && JustFired(cfg, r.state, o)
            && r.sent == Notify(BuildAlert(o, o.tier, FIRE, env), RouteTargets(cfg, o.tier))
  {
  }

  lemma {:induction false} LastBadFires(cfg: Config, key: string, o: Observation, runs: seq<seq<Observation>>)
    requires o.health == BAD && !o.suppressed && Damped(Ends(cfg, key, runs), |runs|)
    requires |runs| + 1 == FlapSamplesFor(cfg, o.check, o.tier)
    ensures JustFired(cfg, Ends(cfg, key, runs + [[o]]), o)
    ensures forall d :: d in Notify(BuildAlert(o, o.tier, FIRE, RunEnv(|runs| + 1)), RouteTargets(cfg, o.tier)) ==>
              d in ExecTicks(cfg, key, Script(runs + [[o]])).sent
  {
    OneMoreRun(cfg, key, runs, o);
    FireOne(cfg, Ends(cfg, key, runs), o, RunEnv(|runs| + 1), |runs|);
  }

  /** As many breaching runs as the threshold asks for: the last one fires. */
  lemma {:induction false} BadsFire(cfg: Config, key: string, o: Observation) returns (n: nat)
    requires o.health == BAD && !o.suppressed && FlapSamplesFor(cfg, o.check, o.tier) >= 1
    ensures n == FlapSamplesFor(cfg, o.check, o.tier) && JustFired(cfg, Ends(cfg, key, Times(o, n)), o)
  {
    n := FlapSamplesFor(cfg, o.check, o.tier);
    var before := Times(o, n - 1);
    assert Times(o, n) == before + [[o]];
    assert Damped(Ends(cfg, key, before), n - 1) by { BadsPend(cfg, key, o, n - 1); }
    LastBadFires(cfg, key, o, before);
  }

  lemma {:induction false} FireIsSent(cfg: Config, key: string, o: Observation, n: nat)
    requires o.health == BAD && !o.suppressed && 1 <= n == FlapSamplesFor(cfg, o.check, o.tier)
    ensures forall d :: d in Notify(BuildAlert(o, o.tier, FIRE, RunEnv(n)), RouteTargets(cfg, o.tier)) ==>
              d in ExecTicks(cfg, key, Script(Times(o, n))).sent
  {
    BadsPend(cfg, key, o, n - 1);
    LastBadFires(cfg, key, o, Times(o, n - 1));
  }

  // ---- recovering ----

  predicate Recovering(s: Option<KeyRecord>, count: int) {
    Firing(s) && s.value.consecutiveOK == count
  }

  lemma {:induction false} FireRecovers(cfg: Config, key: string, o: Observation) returns (n: nat)
    requires cfg.Valid() && o.health == BAD && !o.suppressed
    ensures Recovering(Ends(cfg, key, Times(o, n)), 0)
  {
    ThresholdPositive(cfg, o);
    n := BadsFire(cfg, key, o);
  }

  lemma {:induction false} RecoverOne(cfg: Config, s: Option<KeyRecord>, o: Observation, env: Env, count: int)
    requires Recovering(s, count) && o.health == OK
    ensures if count + 1 < cfg.resolveSamples then Recovering(Step(cfg, s, o, env).state, count + 1)
            else Step(cfg, s, o, env).state.None?
  {
  }

  lemma {:induction false} RecoverMore(cfg: Config, key: string, runs: seq<seq<Observation>>, o: Observation,
      count: nat)
    requires Recovering(Ends(cfg, key, runs), count) && o.health == OK && count + 1 < cfg.resolveSamples
    ensures Recovering(Ends(cfg, key, runs + [[o]]), count + 1)
  {
    OneMoreRun(cfg, key, runs, o);
    RecoverOne(cfg, Ends(cfg, key, runs), o, RunEnv(|runs| + 1), count);
  }

  /** Some good runs, too few to resolve. */
  lemma {:induction false} OKsCount(cfg: Config, key: string, runs: seq<seq<Observation>>, o: Observation, n: nat)
    requires Recovering(Ends(cfg, key, runs), 0) && o.health == OK && n < cfg.resolveSamples
    ensures Recovering(Ends(cfg, key, runs + Times(o, n)), n)
  {
    if n == 0 {
      assert runs + [] == runs;
    } else {
      var before := runs + Times(o, n - 1);
      assert Recovering(Ends(cfg, key, before), n - 1) by { OKsCount(cfg, key, runs, o, n - 1); }
      TimesSnoc(runs, o, n);
      RecoverMore(cfg, key, before, o, n - 1);
    }
  }
}

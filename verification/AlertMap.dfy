/** One whole run over the map of all keys, and its decomposition into independent
    per-key machines. */
module AlertMap {
  import opened Types
  import opened Route
  import opened KeyMachine

  type Alerts = map<string, KeyRecord>

  function Lookup(m: Alerts, key: string): Option<KeyRecord> {
    if key in m then Some(m[key]) else None
  }

  function Store(m: Alerts, key: string, s: Option<KeyRecord>): Alerts {
    if s.Some? then m[key := s.value] else m - {key}
  }

  datatype Advanced = Advanced(alerts: Alerts, sent: seq<Decision>)

  /** The observations of one run, in order. */
  function Observe(cfg: Config, m: Alerts, obs: seq<Observation>, env: Env): Advanced {
    if obs == [] then Advanced(m, [])
    else
      var o := obs[|obs| - 1];
      var before := Observe(cfg, m, obs[..|obs| - 1], env);
      var r := Step(cfg, Lookup(before.alerts, o.Key()), o, env);
      Advanced(Store(before.alerts, o.Key(), r.state), before.sent + r.sent)
  }

  predicate Coarse(o: Observation) { o.health == UNKNOWN && o.scope == "docker" }

  /** The checks whose whole source collapsed to a coarse UNKNOWN. */
  function DownChecks(obs: seq<Observation>): set<string> {
    set o | o in obs && Coarse(o) :: o.check
  }

  function SweepKey(m: Alerts, down: set<string>, env: Env, key: string): Outcome
    requires key in m
    ensures SweepKey(m, down, env, key).state.Some?
  {
    if CheckOf(key) in down then Sweep(key, Some(m[key]), env) else Outcome(Some(m[key]), [])
  }

  function SweepAll(m: Alerts, down: set<string>, env: Env): Alerts {
    map key | key in m :: SweepKey(m, down, env, key).state.value
  }

  /** The keys the sweep speaks about. The sweep walks the map in no fixed order, so
      a run carries the order it happened to use. */
  function Degrading(m: Alerts, down: set<string>, env: Env): set<string> {
    set key | key in m && SweepKey(m, down, env, key).sent != []
  }

  predicate ValidOrder(m: Alerts, down: set<string>, env: Env, order: seq<string>) {
    && NoDuplicates(order)
    && (forall k :: k in order ==> k in Degrading(m, down, env))
    && (forall k :: k in Degrading(m, down, env) ==> k in order)
  }

  function SweepSent(m: Alerts, down: set<string>, env: Env, order: seq<string>): seq<Decision>
    requires forall k :: k in order ==> k in m
  {
    if order == [] then []
    else
      var n := |order| - 1;
      SweepSent(m, down, env, order[..n]) + SweepKey(m, down, env, order[n]).sent
  }

  /** A sweep in progress: `order` lists the keys spoken about among those done. */
  predicate SweptSoFar(m: Alerts, down: set<string>, env: Env, done: set<string>, order: seq<string>,
      sent: seq<Decision>) {
    && NoDuplicates(order)
    && (forall k :: k in order ==> k in Degrading(m, down, env) && k in done)
    && (forall k :: k in Degrading(m, down, env) && k in done ==> k in order)
    && sent == SweepSent(m, down, env, order)
  }

  lemma {:induction false} SweepOneMore(
      m: Alerts, down: set<string>, env: Env, done: set<string>, order: seq<string>, sent: seq<Decision>, key: string)
    requires SweptSoFar(m, down, env, done, order, sent) && key in m && key !in done
    ensures var said := SweepKey(m, down, env, key).sent;
            SweptSoFar(m, down, env, done + {key}, if said == [] then order else order + [key], sent + said)
  {
    assert (order + [key])[..|order|] == order;
  }

  predicate Sweeps(m: Alerts, down: set<string>, env: Env, order: seq<string>, after: Advanced) {
    && ValidOrder(m, down, env, order)
    && after == Advanced(SweepAll(m, down, env), SweepSent(m, down, env, order))
  }

  lemma {:induction false} SweepDone(m: Alerts, down: set<string>, env: Env, done: set<string>,
      order: seq<string>, sent: seq<Decision>)
    requires SweptSoFar(m, down, env, done, order, sent) && m.Keys <= done
    ensures Sweeps(m, down, env, order, Advanced(SweepAll(m, down, env), sent))
  {
  }

  function PruneAll(m: Alerts, runID: int): Alerts {
    map key | key in m && Prune(Some(m[key]), runID).Some? :: m[key]
  }

  // ---- whole runs ----

  datatype Run = Run(obs: seq<Observation>, env: Env, order: seq<string>)

  predicate ValidRun(cfg: Config, m: Alerts, run: Run) {
    ValidOrder(Observe(cfg, m, run.obs, run.env).alerts, DownChecks(run.obs), run.env, run.order)
  }

  /** The alert stage of a run: observations in order, then the outage sweep. */
  function AdvanceAll(cfg: Config, m: Alerts, run: Run): Advanced
    requires ValidRun(cfg, m, run)
  {
    var seen := Observe(cfg, m, run.obs, run.env);
    var down := DownChecks(run.obs);
    Advanced(SweepAll(seen.alerts, down, run.env),
             seen.sent + SweepSent(seen.alerts, down, run.env, run.order))
  }

  /** `after` is what the alert stage makes of `m`. */
  predicate Advances(cfg: Config, m: Alerts, run: Run, after: Advanced) {
    ValidRun(cfg, m, run) && after == AdvanceAll(cfg, m, run)
  }

  lemma {:induction false} AdvanceInParts(
      cfg: Config, m: Alerts, obs: seq<Observation>, env: Env, order: seq<string>, seen: Advanced, swept: Advanced)
    requires seen == Observe(cfg, m, obs, env)
    requires Sweeps(seen.alerts, DownChecks(obs), env, order, swept)
    ensures Advances(cfg, m, Run(obs, env, order), Advanced(swept.alerts, seen.sent + swept.sent))
  {
  }

  function ExecRun(cfg: Config, m: Alerts, run: Run): Advanced
    requires ValidRun(cfg, m, run)
  {
    var a := AdvanceAll(cfg, m, run);
    a.(alerts := PruneAll(a.alerts, run.env.runID))
  }

  /** `after` is what the whole run makes of `m`. */
  predicate Executes(cfg: Config, m: Alerts, run: Run, after: Advanced) {
    ValidRun(cfg, m, run) && after == ExecRun(cfg, m, run)
  }

  lemma {:induction false} PruneCompletes(cfg: Config, m: Alerts, run: Run, mid: Advanced)
    requires Advances(cfg, m, run, mid)
    ensures Executes(cfg, m, run, mid.(alerts := PruneAll(mid.alerts, run.env.runID)))
  {
  }

  lemma {:induction false} ObserveStamps(cfg: Config, m: Alerts, obs: seq<Observation>, env: Env)
    ensures forall d :: d in Observe(cfg, m, obs, env).sent ==> d.alert.runID == env.runID
  {
    if obs != [] {
      ObserveStamps(cfg, m, obs[..|obs| - 1], env);
      var o, before := obs[|obs| - 1], Observe(cfg, m, obs[..|obs| - 1], env);
      assert forall d :: d in Step(cfg, Lookup(before.alerts, o.Key()), o, env).sent ==> d.alert.runID == env.runID;
    }
  }

  lemma {:induction false} SweepStamps(m: Alerts, down: set<string>, env: Env, order: seq<string>)
    requires forall k :: k in order ==> k in m
    ensures forall d :: d in SweepSent(m, down, env, order) ==> d.alert.runID == env.runID
  {
    if order != [] {
      var n := |order| - 1;
      assert order[n] in order;
      SweepStamps(m, down, env, order[..n]);
      assert forall d :: d in SweepKey(m, down, env, order[n]).sent ==> d.alert.runID == env.runID;
    }
  }

  // ---- what one key sees ----

  function OfKey(obs: seq<Observation>, key: string): seq<Observation> {
    if obs == [] then []
    else
      var n := |obs| - 1;
      OfKey(obs[..n], key) + if obs[n].Key() == key then [obs[n]] else []
  }

  function Project(run: Run, key: string): Tick {
    Tick(OfKey(run.obs, key), CheckOf(key) in DownChecks(run.obs), run.env)
  }

  function DecisionsOf(sent: seq<Decision>, key: string): seq<Decision> {
    if sent == [] then []
    else
      var n := |sent| - 1;
      DecisionsOf(sent[..n], key) + if sent[n].alert.key == key then [sent[n]] else []
  }

  lemma {:induction false} DecisionsOfConcat(a: seq<Decision>, b: seq<Decision>, key: string)
    ensures DecisionsOf(a + b, key) == DecisionsOf(a, key) + DecisionsOf(b, key)
  {
    if b == [] {
      assert a + b == a;
    } else {
      var n := |b| - 1;
      DecisionsOfConcat(a, b[..n], key);
      assert (a + b)[..|a + b| - 1] == a + b[..n];
    }
  }

  /** Everything a transition says is about its own key. */
  lemma {:induction false} StepSpeaksOfItsKey(cfg: Config, s: Option<KeyRecord>, o: Observation, env: Env, key: string)
    ensures var sent := Step(cfg, s, o, env).sent;
            && |sent| <= 1
            && DecisionsOf(sent, key) == if o.Key() == key then sent else []
  {
    var sent := Step(cfg, s, o, env).sent;
    if sent != [] {
      assert |sent| == 1 && sent[0].alert.key == o.Key();
      assert DecisionsOf(sent, key) == DecisionsOf(sent[..0], key) + if o.Key() == key then [sent[0]] else [];
    }
  }

  /** The whole system and one key's machine tell the same story about the key. */
  predicate Agrees(all: Advanced, key: string, own: Outcome) {
    Lookup(all.alerts, key) == own.state && DecisionsOf(all.sent, key) == own.sent
  }

  /** One observation touches its own key only. */
  lemma {:induction false} ObserveOne(cfg: Config, before: Advanced, o: Observation, env: Env, key: string)
    ensures var r := Step(cfg, Lookup(before.alerts, o.Key()), o, env);
            var m, sent := Store(before.alerts, o.Key(), r.state), before.sent + r.sent;
            && Lookup(m, key) == (if o.Key() == key then r.state else Lookup(before.alerts, key))
            && DecisionsOf(sent, key) == DecisionsOf(before.sent, key) + if o.Key() == key then r.sent else []
  {
    var s := Lookup(before.alerts, o.Key());
    StepSpeaksOfItsKey(cfg, s, o, env, key);
    DecisionsOfConcat(before.sent, Step(cfg, s, o, env).sent, key);
  }

  lemma {:induction false} ObserveProjects(cfg: Config, m: Alerts, obs: seq<Observation>, env: Env, key: string)
    ensures Agrees(Observe(cfg, m, obs, env), key, Exec(cfg, key, Lookup(m, key), Sightings(OfKey(obs, key), env)))
  {
    if obs != [] {
      var n := |obs| - 1;
      var o, mine := obs[n], OfKey(obs[..n], key);
      ObserveProjects(cfg, m, obs[..n], env, key);
      var before := Observe(cfg, m, obs[..n], env);
      ObserveOne(cfg, before, o, env, key);
      if o.Key() == key {
        assert Sightings(OfKey(obs, key), env) == Sightings(mine, env) + [Seen(o, env)];
        ExecSnoc(cfg, key, Lookup(m, key), Sightings(mine, env), Seen(o, env));
      } else {
        assert OfKey(obs, key) == mine;
        assert DecisionsOf(before.sent, key) + [] == DecisionsOf(before.sent, key);
      }
    }
  }

  lemma {:induction false} SweepSpeaksOfItsKey(m: Alerts, down: set<string>, env: Env, k: string, key: string)
    requires k in m
    ensures DecisionsOf(SweepKey(m, down, env, k).sent, key)
            == if k == key then SweepKey(m, down, env, k).sent else []
  {
    var said := SweepKey(m, down, env, k).sent;
    if said != [] {
      assert |said| == 1 && said[0].alert.key == k && said[..0] == [];
    }
  }

  lemma {:induction false} InLast(order: seq<string>, key: string)
    requires order != [] && NoDuplicates(order)
    ensures var p, k := order[..|order| - 1], order[|order| - 1];
            && NoDuplicates(p) && k !in p
            && (key in order <==> key in p || key == k)
  {
    assert order == order[..|order| - 1] + [order[|order| - 1]];
  }

  lemma {:induction false} SweepSentOf(m: Alerts, down: set<string>, env: Env, order: seq<string>, key: string)
    requires NoDuplicates(order) && forall k :: k in order ==> k in m
    ensures DecisionsOf(SweepSent(m, down, env, order), key)
            == if key in order then SweepKey(m, down, env, key).sent else []
  {
    if order != [] {
      var p, k := order[..|order| - 1], order[|order| - 1];
      InLast(order, key);
      assert k in order;
      SweepSentOf(m, down, env, p, key);
      var told, said := SweepSent(m, down, env, p), SweepKey(m, down, env, k).sent;
      SweepSpeaksOfItsKey(m, down, env, k, key);
      DecisionsOfConcat(told, said, key);
      if k == key {
        assert [] + said == said;
      } else {
        assert DecisionsOf(told, key) + [] == DecisionsOf(told, key);
      }
    }
  }

  lemma {:induction false} SweepProjects(m: Alerts, down: set<string>, env: Env, order: seq<string>, key: string)
    requires ValidOrder(m, down, env, order)
    ensures var s := Lookup(m, key);
            var swept := if CheckOf(key) in down then Sweep(key, s, env) else Outcome(s, []);
            && Lookup(SweepAll(m, down, env), key) == swept.state
            && DecisionsOf(SweepSent(m, down, env, order), key) == swept.sent
  {
    SweepSentOf(m, down, env, order, key);
    assert key in m ==> (key in Degrading(m, down, env) <==> SweepKey(m, down, env, key).sent != []);
  }

  /** Running everything on the whole observation list is, key by key, running an
      independent machine on that key's own observations plus one bit: whether its
      check's source is down. Keys may repeat within the run. */
  lemma {:induction false} RunProjects(cfg: Config, m: Alerts, run: Run, key: string)
    requires ValidRun(cfg, m, run)
    ensures var all := ExecRun(cfg, m, run);
            var own := ExecTick(cfg, key, Lookup(m, key), Project(run, key));
            Lookup(all.alerts, key) == own.state && DecisionsOf(all.sent, key) == own.sent
  {
    var env, down := run.env, DownChecks(run.obs);
    var seen := Observe(cfg, m, run.obs, env);
    var t := Project(run, key);
    ExecTickParts(cfg, key, Lookup(m, key), t);
    ObserveProjects(cfg, m, run.obs, env, key);
    var own := Exec(cfg, key, Lookup(m, key), Sightings(t.obs, env));
    var swept := if t.down then Sweep(key, own.state, env) else Outcome(own.state, []);
    DecisionsOfConcat(seen.sent, SweepSent(seen.alerts, down, env, run.order), key);
    SweepProjects(seen.alerts, down, env, run.order, key);
    assert Lookup(SweepAll(seen.alerts, down, env), key) == swept.state;
    assert Lookup(PruneAll(SweepAll(seen.alerts, down, env), env.runID), key) == Prune(swept.state, env.runID);
  }

  /** Every decision carries the id of its run. */
  lemma {:induction false} RunStamps(cfg: Config, m: Alerts, run: Run)
    requires ValidRun(cfg, m, run)
    ensures forall d :: d in ExecRun(cfg, m, run).sent ==> d.alert.runID == run.env.runID
  {
    ObserveStamps(cfg, m, run.obs, run.env);
    SweepStamps(Observe(cfg, m, run.obs, run.env).alerts, DownChecks(run.obs), run.env, run.order);
  }

  // ---- sequences of runs, from an empty state file ----

  predicate ValidRuns(cfg: Config, runs: seq<Run>)
    decreases |runs|, 0
  {
    runs == [] ||
    var n := |runs| - 1;
    ValidRuns(cfg, runs[..n]) && ValidRun(cfg, ExecRuns(cfg, runs[..n]).alerts, runs[n])
  }

  function ExecRuns(cfg: Config, runs: seq<Run>): Advanced
    requires ValidRuns(cfg, runs)
    decreases |runs|, 1
  {
    if runs == [] then Advanced(map[], [])
    else
      var n := |runs| - 1;
      var before := ExecRuns(cfg, runs[..n]);
      var after := ExecRun(cfg, before.alerts, runs[n]);
      Advanced(after.alerts, before.sent + after.sent)
  }

  function ProjectAll(runs: seq<Run>, key: string): seq<Tick> {
    seq(|runs|, i requires 0 <= i < |runs| => Project(runs[i], key))
  }

  lemma {:induction false} AgreesSnoc(cfg: Config, all: Advanced, run: Run, key: string, ticks: seq<Tick>)
    requires ValidRun(cfg, all.alerts, run) && Agrees(all, key, ExecTicks(cfg, key, ticks))
    ensures var after := ExecRun(cfg, all.alerts, run);
            Agrees(Advanced(after.alerts, all.sent + after.sent), key,
                   ExecTicks(cfg, key, ticks + [Project(run, key)]))
  {
    RunProjects(cfg, all.alerts, run, key);
    DecisionsOfConcat(all.sent, ExecRun(cfg, all.alerts, run).sent, key);
    ExecTicksSnoc(cfg, key, ticks, Project(run, key));
  }

  /** Over any sequence of runs each key follows its own machine on its own history,
      so every statement about one key's histories is one about the whole system. */
  lemma {:induction false} RunsProject(cfg: Config, runs: seq<Run>, key: string)
    requires ValidRuns(cfg, runs)
    ensures Agrees(ExecRuns(cfg, runs), key, ExecTicks(cfg, key, ProjectAll(runs, key)))
  {
    if runs != [] {
      var n := |runs| - 1;
      RunsProject(cfg, runs[..n], key);
      AgreesSnoc(cfg, ExecRuns(cfg, runs[..n]), runs[n], key, ProjectAll(runs[..n], key));
      assert ProjectAll(runs, key) == ProjectAll(runs[..n], key) + [Project(runs[n], key)];
    }
  }

  // ---- order of observations ----

  predicate DistinctKeys(obs: seq<Observation>) {
    forall i, j :: 0 <= i < j < |obs| ==> obs[i].Key() != obs[j].Key()
  }

  lemma {:induction false} OfKeyCounts(obs: seq<Observation>, key: string, o: Observation)
    ensures multiset(OfKey(obs, key))[o] == if o.Key() == key then multiset(obs)[o] else 0
  {
    if obs != [] {
      var n := |obs| - 1;
      OfKeyCounts(obs[..n], key, o);
      assert obs == obs[..n] + [obs[n]];
    }
  }

  lemma {:induction false} OfKeyHasKey(obs: seq<Observation>, key: string)
    ensures forall o :: o in OfKey(obs, key) ==> o in obs && o.Key() == key
  {
    if obs != [] {
      var n := |obs| - 1;
      OfKeyHasKey(obs[..n], key);
      assert obs == obs[..n] + [obs[n]];
    }
  }

  lemma {:induction false} AtMostOneOfKey(obs: seq<Observation>, key: string)
    requires DistinctKeys(obs)
    ensures |OfKey(obs, key)| <= 1
    ensures (forall o :: o in obs ==> o.Key() != key) ==> OfKey(obs, key) == []
  {
    if obs != [] {
      var n := |obs| - 1;
      AtMostOneOfKey(obs[..n], key);
      assert forall o :: o in obs[..n] ==> o in obs && o.Key() != obs[n].Key();
    }
  }

  lemma {:induction false} SameSingleton(x: seq<Observation>, y: seq<Observation>)
    requires |x| <= 1 && multiset(x) == multiset(y)
    ensures x == y
  {
    assert |x| == |multiset(x)| && |y| == |multiset(y)|;
    if |x| == 1 {
      assert y[0] in multiset(x);
    }
  }

  lemma {:induction false} SameSightings(a: seq<Observation>, b: seq<Observation>, key: string)
    requires DistinctKeys(a) && multiset(a) == multiset(b)
    ensures OfKey(a, key) == OfKey(b, key)
  {
    AtMostOneOfKey(a, key);
    var x, y := OfKey(a, key), OfKey(b, key);
    forall o ensures multiset(x)[o] == multiset(y)[o] {
      OfKeyCounts(a, key, o);
      OfKeyCounts(b, key, o);
    }
    assert multiset(x) == multiset(y);
    SameSingleton(x, y);
  }

  lemma {:induction false} SameDownChecks(a: seq<Observation>, b: seq<Observation>)
    requires multiset(a) == multiset(b)
    ensures DownChecks(a) == DownChecks(b)
  {
    assert forall o :: o in a <==> o in multiset(a);
    assert forall o :: o in b <==> o in multiset(b);
  }

  lemma {:induction false} CountsByKey(sent: seq<Decision>, d: Decision)
    ensures multiset(sent)[d] == multiset(DecisionsOf(sent, d.alert.key))[d]
  {
    if sent != [] {
      var n := |sent| - 1;
      CountsByKey(sent[..n], d);
      assert sent == sent[..n] + [sent[n]];
    }
  }

  /** With distinct keys the order of a run's observations does not matter: the same
      records are left and the same decisions are sent. */
  lemma {:induction false} OrderIrrelevant(cfg: Config, m: Alerts, a: Run, b: Run)
    requires ValidRun(cfg, m, a) && ValidRun(cfg, m, b)
    requires a.env == b.env && multiset(a.obs) == multiset(b.obs) && DistinctKeys(a.obs)
    ensures ExecRun(cfg, m, a).alerts == ExecRun(cfg, m, b).alerts
    ensures multiset(ExecRun(cfg, m, a).sent) == multiset(ExecRun(cfg, m, b).sent)
  {
    var ra, rb := ExecRun(cfg, m, a), ExecRun(cfg, m, b);
    SameDownChecks(a.obs, b.obs);
    forall key
      ensures Lookup(ra.alerts, key) == Lookup(rb.alerts, key)
      ensures DecisionsOf(ra.sent, key) == DecisionsOf(rb.sent, key)
    {
      SameSightings(a.obs, b.obs, key);
      RunProjects(cfg, m, a, key);
      RunProjects(cfg, m, b, key);
    }
    forall key | key in ra.alerts || key in rb.alerts
      ensures key in ra.alerts && key in rb.alerts && ra.alerts[key] == rb.alerts[key]
    {
      assert Lookup(ra.alerts, key) == Lookup(rb.alerts, key);
    }
    forall d ensures multiset(ra.sent)[d] == multiset(rb.sent)[d] {
      CountsByKey(ra.sent, d);
      CountsByKey(rb.sent, d);
      assert DecisionsOf(ra.sent, d.alert.key) == DecisionsOf(rb.sent, d.alert.key);
    }
  }
}

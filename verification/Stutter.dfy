/** UNKNOWN is a stutter: runs in which a key could not be measured can be deleted
    from its history without changing what it does afterwards. */
module Stutter {
  import opened Types
  import opened KeyMachine
  import opened Histories

  ghost predicate SeenBefore(s: Option<KeyRecord>, runID: int) {
    s.Some? ==> s.value.lastSeenRun < runID
  }

  ghost predicate SeenBy(s: Option<KeyRecord>, runID: int) {
    s.Some? ==> s.value.lastSeenRun <= runID
  }

  lemma {:induction false} SightingsSnoc(cfg: Config, key: string, s: Option<KeyRecord>, obs: seq<Observation>,
      env: Env)
    requires obs != []
    ensures var p, o := obs[..|obs| - 1], obs[|obs| - 1];
            var before := Exec(cfg, key, s, Sightings(p, env));
            var after := Step(cfg, before.state, o, env);
            Exec(cfg, key, s, Sightings(obs, env)) == Outcome(after.state, before.sent + after.sent)
  {
    var p, o := obs[..|obs| - 1], obs[|obs| - 1];
    assert Sightings(obs, env) == Sightings(p, env) + [Seen(o, env)];
    ExecSnoc(cfg, key, s, Sightings(p, env), Seen(o, env));
  }

  lemma {:induction false} SightingsSeenBy(cfg: Config, key: string, s: Option<KeyRecord>,
      obs: seq<Observation>, env: Env)
    requires SeenBy(s, env.runID)
    ensures SeenBy(Exec(cfg, key, s, Sightings(obs, env)).state, env.runID)
  {
    if obs != [] {
      SightingsSeenBy(cfg, key, s, obs[..|obs| - 1], env);
      SightingsSnoc(cfg, key, s, obs, env);
    }
  }

  lemma {:induction false} TickSeenBy(cfg: Config, key: string, s: Option<KeyRecord>, t: Tick)
    requires SeenBy(s, t.env.runID)
    ensures SeenBy(ExecTick(cfg, key, s, t).state, t.env.runID)
  {
    ExecTickParts(cfg, key, s, t);
    SightingsSeenBy(cfg, key, s, t.obs, t.env);
  }

  lemma {:induction false} LastSeenBounded(cfg: Config, key: string, ticks: seq<Tick>)
    requires Rising(ticks)
    ensures var s := ExecTicks(cfg, key, ticks).state;
            s.Some? ==> |ticks| > 0 && s.value.lastSeenRun <= ticks[|ticks| - 1].env.runID
  {
    if ticks != [] {
      var n := |ticks| - 1;
      LastSeenBounded(cfg, key, ticks[..n]);
      assert ticks == ticks[..n] + [ticks[n]];
      ExecTicksSnoc(cfg, key, ticks[..n], ticks[n]);
      TickSeenBy(cfg, key, ExecTicks(cfg, key, ticks[..n]).state, ticks[n]);
    }
  }

  // ---- one run ----

  /** What a run measured of the key, in order. */
  function Measured(obs: seq<Observation>): seq<Observation> {
    if obs == [] then []
    else
      var o := obs[|obs| - 1];
      Measured(obs[..|obs| - 1]) + if o.Measured() then [o] else []
  }

  /** The run took no measurement of the key: all it observed was UNKNOWN, or it observed
      nothing and the whole source of the key's check was down. */
  predicate VisionLost(t: Tick) {
    Measured(t.obs) == [] && (t.obs != [] || t.down)
  }

  /** Equal but for the two fields a blind run may touch. */
  predicate SameButBlind(a: Option<KeyRecord>, b: Option<KeyRecord>) {
    a.Some? == b.Some? &&
    (a.Some? ==> a.value.(lastSeenRun := 0, degradedNotified := false)
                 == b.value.(lastSeenRun := 0, degradedNotified := false))
  }

  predicate Blind(s: Option<KeyRecord>, t: Tick) {
    VisionLost(t) && !(t.obs == [] && Pending(s))
  }

  function Audible(sent: seq<Decision>): seq<Decision> {
    if sent == [] then []
    else
      var n := |sent| - 1;
      Audible(sent[..n]) + if sent[n].alert.kind == DEGRADED then [] else [sent[n]]
  }

  lemma {:induction false} AudibleConcat(a: seq<Decision>, b: seq<Decision>)
    ensures Audible(a + b) == Audible(a) + Audible(b)
  {
    if b == [] {
      assert a + b == a;
    } else {
      var n := |b| - 1;
      AudibleConcat(a, b[..n]);
      assert (a + b)[..|a + b| - 1] == a + b[..n];
    }
  }

  predicate Stamped(s: Option<KeyRecord>, runID: int) {
    s.Some? ==> s.value.lastSeenRun == runID
  }

  /** Two outcomes that differ only in what an UNKNOWN may touch or say. */
  predicate Alike(a: Outcome, b: Outcome) {
    SameButBlind(a.state, b.state) && Audible(a.sent) == Audible(b.sent)
  }

  lemma {:induction false} UnknownStep(cfg: Config, s: Option<KeyRecord>, o: Observation, env: Env)
    requires !o.Measured()
    ensures var r := Step(cfg, s, o, env);
            SameButBlind(r.state, s) && Audible(r.sent) == [] && Stamped(r.state, env.runID)
            && forall d :: d in r.sent ==> d.alert.kind == DEGRADED
  {
    var sent := Step(cfg, s, o, env).sent;
    if sent != [] {
      assert sent[..0] == [];
    }
  }

  lemma {:induction false} MeasuredStep(cfg: Config, a: Option<KeyRecord>, b: Option<KeyRecord>,
      o: Observation, env: Env)
    requires o.Measured() && SameButBlind(a, b)
    ensures Step(cfg, a, o, env) == Step(cfg, b, o, env) && Stamped(Step(cfg, a, o, env).state, env.runID)
  {
  }

  /** Observing everything and observing only what was measured come to the same. */
  lemma {:induction false} SightingsAlike(
      cfg: Config, key: string, a: Option<KeyRecord>, b: Option<KeyRecord>, obs: seq<Observation>, env: Env)
    requires SameButBlind(a, b)
    ensures var ra := Exec(cfg, key, a, Sightings(obs, env));
            var rb := Exec(cfg, key, b, Sightings(Measured(obs), env));
            && Alike(ra, rb)
            && (obs != [] ==> Stamped(ra.state, env.runID))
            && (Measured(obs) != [] ==> Stamped(rb.state, env.runID))
  {
    if obs != [] {
      var p, o := obs[..|obs| - 1], obs[|obs| - 1];
      SightingsAlike(cfg, key, a, b, p, env);
      SightingsSnoc(cfg, key, a, obs, env);
      var pa := Exec(cfg, key, a, Sightings(p, env));
      var pb := Exec(cfg, key, b, Sightings(Measured(p), env));
      AudibleConcat(pa.sent, Step(cfg, pa.state, o, env).sent);
      if o.Measured() {
        assert Measured(obs)[..|Measured(obs)| - 1] == Measured(p);
        SightingsSnoc(cfg, key, b, Measured(obs), env);
        AudibleConcat(pb.sent, Step(cfg, pb.state, o, env).sent);
        MeasuredStep(cfg, pa.state, pb.state, o, env);
      } else {
        UnknownStep(cfg, pa.state, o, env);
        assert Measured(obs) == Measured(p);
        assert Audible(pa.sent) + [] == Audible(pa.sent);
      }
    }
  }

  lemma {:induction false} UnknownSightings(
      cfg: Config, key: string, s: Option<KeyRecord>, obs: seq<Observation>, env: Env)
    requires Measured(obs) == []
    ensures var r := Exec(cfg, key, s, Sightings(obs, env));
            && SameButBlind(r.state, s) && (obs != [] ==> Stamped(r.state, env.runID))
            && forall d :: d in r.sent ==> d.alert.kind == DEGRADED
  {
    if obs != [] {
      var p, o := obs[..|obs| - 1], obs[|obs| - 1];
      assert Measured(p) == [] && !o.Measured();
      UnknownSightings(cfg, key, s, p, env);
      SightingsSnoc(cfg, key, s, obs, env);
      UnknownStep(cfg, Exec(cfg, key, s, Sightings(p, env)).state, o, env);
    }
  }

  /** When a blind run really freezes the key. The design asks for every UNKNOWN;
      the code freezes if and only if it is not the case that the key is pending and
      only the coarse observation of its check was emitted, for then it is pruned. */
  lemma {:induction false} FreezesExactly(cfg: Config, key: string, s: Option<KeyRecord>, t: Tick)
    requires VisionLost(t) && SeenBefore(s, t.env.runID)
    ensures SameButBlind(ExecTick(cfg, key, s, t).state, s) <==> Blind(s, t)
    ensures !Blind(s, t) ==> ExecTick(cfg, key, s, t).state.None?
    ensures forall d :: d in ExecTick(cfg, key, s, t).sent ==> d.alert.kind == DEGRADED
  {
    ExecTickParts(cfg, key, s, t);
    UnknownSightings(cfg, key, s, t.obs, t.env);
  }

  /** A pending key one BAD short of firing, then a Docker outage: the count is
      lost and the next BAD starts over. */
  lemma {:induction false} OutageForgetsPendingKey(cfg: Config, o: Observation, bad: Tick, outage: Tick)
    requires FlapSamplesFor(cfg, o.check, o.tier) == 2
    requires o.health == BAD && !o.suppressed
    requires bad == Tick([o], false, bad.env) && outage == Tick([], true, outage.env)
    requires bad.env.runID < outage.env.runID
    ensures Pending(ExecTicks(cfg, o.Key(), [bad]).state)
    ensures ExecTicks(cfg, o.Key(), [bad, outage]).state.None?
  {
    var key := o.Key();
    ExecTicksSnoc(cfg, key, [], bad);
    assert [] + [bad] == [bad] && [bad] + [outage] == [bad, outage];
    ExecTickUnfolds(cfg, key, None, bad);
    ExecTicksSnoc(cfg, key, [bad], outage);
    ExecTickUnfolds(cfg, key, ExecTicks(cfg, key, [bad]).state, outage);
  }

  lemma {:induction false} AllDegradedInaudible(sent: seq<Decision>)
    requires forall d :: d in sent ==> d.alert.kind == DEGRADED
    ensures Audible(sent) == []
  {
    if sent != [] {
      AllDegradedInaudible(sent[..|sent| - 1]);
    }
  }

  // ---- whole histories ----

  /** The run with its UNKNOWN observations deleted. */
  function Sighted(t: Tick): Tick { t.(obs := Measured(t.obs)) }

  /** The history with every blind run deleted, and every UNKNOWN observation in the runs
      kept, each with its own clock and run id. */
  function DropBlind(cfg: Config, key: string, ticks: seq<Tick>): seq<Tick> {
    if ticks == [] then []
    else
      var n := |ticks| - 1;
      var kept := DropBlind(cfg, key, ticks[..n]);
      if Blind(ExecTicks(cfg, key, ticks[..n]).state, ticks[n]) then kept else kept + [Sighted(ticks[n])]
  }

  /** A run that is not blind acts alike, with and without its UNKNOWN observations, on
      states that differ only by blindness. */
  lemma {:induction false} SightedTick(cfg: Config, key: string, a: Option<KeyRecord>, b: Option<KeyRecord>, t: Tick)
    requires !Blind(a, t) && SameButBlind(a, b)
    requires SeenBefore(a, t.env.runID) && SeenBefore(b, t.env.runID)
    ensures Alike(ExecTick(cfg, key, a, t), ExecTick(cfg, key, b, Sighted(t)))
  {
    var env := t.env;
    SightingsAlike(cfg, key, a, b, t.obs, env);
    ExecTickParts(cfg, key, a, t);
    ExecTickParts(cfg, key, b, Sighted(t));
    var ra := Exec(cfg, key, a, Sightings(t.obs, env));
    var rb := Exec(cfg, key, b, Sightings(Measured(t.obs), env));
    assert ra.sent + [] == ra.sent && rb.sent + [] == rb.sent;
    if t.obs == [] {
      assert Sightings([], env) == [];
    }
  }

  ghost predicate StutterInvariant(cfg: Config, key: string, ticks: seq<Tick>) {
    var full, kept := ExecTicks(cfg, key, ticks), ExecTicks(cfg, key, DropBlind(cfg, key, ticks));
    && Alike(full, kept)
    && (kept.state.Some? ==> |ticks| > 0 && kept.state.value.lastSeenRun <= ticks[|ticks| - 1].env.runID)
  }

  lemma {:induction false} StutterSnoc(cfg: Config, key: string, before: seq<Tick>, t: Tick)
    requires Rising(before) && StutterInvariant(cfg, key, before)
    requires before != [] ==> before[|before| - 1].env.runID < t.env.runID
    ensures StutterInvariant(cfg, key, before + [t])
  {
    assert (before + [t])[..|before|] == before;
    var kept := DropBlind(cfg, key, before);
    var s, k := ExecTicks(cfg, key, before), ExecTicks(cfg, key, kept);
    assert SeenBefore(s.state, t.env.runID) by { LastSeenBounded(cfg, key, before); }
    ExecTicksSnoc(cfg, key, before, t);
    var r := ExecTick(cfg, key, s.state, t);
    AudibleConcat(s.sent, r.sent);
    if Blind(s.state, t) {
      FreezesExactly(cfg, key, s.state, t);
      AllDegradedInaudible(r.sent);
    } else {
      ExecTicksSnoc(cfg, key, kept, Sighted(t));
      SightedTick(cfg, key, s.state, k.state, t);
      AudibleConcat(k.sent, ExecTick(cfg, key, k.state, Sighted(t)).sent);
      TickSeenBy(cfg, key, k.state, Sighted(t));
    }
  }

  /** Deleting every blind run, and every UNKNOWN observation of the others, leaves the
      FIRE, ESCALATE, REMINDER and RESOLVED decisions (with their instants, tiers,
      channels and run ids) and the final record unchanged, for every history and however
      often a run observes the key. */
  lemma {:induction false} UnknownIsStutter(cfg: Config, key: string, ticks: seq<Tick>)
    requires Rising(ticks)
    ensures Alike(ExecTicks(cfg, key, ticks), ExecTicks(cfg, key, DropBlind(cfg, key, ticks)))
    ensures StutterInvariant(cfg, key, ticks)
  {
    if ticks != [] {
      var n := |ticks| - 1;
      UnknownIsStutter(cfg, key, ticks[..n]);
      assert ticks == ticks[..n] + [ticks[n]];
      StutterSnoc(cfg, key, ticks[..n], ticks[n]);
    }
  }
}

/** The in-place implementation: a snapshot whose map holds one mutable record per
    key, updated by the handlers, swept, and pruned. */
module Snapshots {
  import opened Types
  import opened Route
  import opened KeyMachine
  import opened AlertMap

  lemma {:induction false} StoreTwice(m: Alerts, key: string, r: KeyRecord)
    ensures Store(Store(m, key, Some(r)), key, None) == Store(m, key, None)
  {
  }

  class KeyState {
    var status: Status
    var tier: Tier
    var consecutiveBad: int
    var consecutiveOK: int
    var firstDetected: int
    var firedAt: int
    var lastNotified: int
    var lastTierNotified: Tier
    var notifiedTargets: seq<string>
    var lastMeasured: string
    var lastSeenRun: int
    var degradedNotified: bool

    ghost function View(): KeyRecord
      reads this
    {
      KeyRecord(status, tier, consecutiveBad, consecutiveOK, firstDetected, firedAt, lastNotified,
                lastTierNotified, notifiedTargets, lastMeasured, lastSeenRun, degradedNotified)
    }

    constructor (r: KeyRecord)
      ensures View() == r
    {
      status, tier, consecutiveBad, consecutiveOK := r.status, r.tier, r.consecutiveBad, r.consecutiveOK;
      firstDetected, firedAt, lastNotified := r.firstDetected, r.firedAt, r.lastNotified;
      lastTierNotified, notifiedTargets, lastMeasured := r.lastTierNotified, r.notifiedTargets, r.lastMeasured;
      lastSeenRun, degradedNotified := r.lastSeenRun, r.degradedNotified;
    }

    method Record() returns (r: KeyRecord)
      ensures r == View()
    {
      r := KeyRecord(status, tier, consecutiveBad, consecutiveOK, firstDetected, firedAt, lastNotified,
                     lastTierNotified, notifiedTargets, lastMeasured, lastSeenRun, degradedNotified);
    }

    method Clamp(now: int)
      modifies this
      ensures View() == ClampClock(old(View()), now)
    {
      if now < lastNotified {
        lastNotified := now;
      }
      if now < firstDetected {
        firstDetected := now;
      }
    }
  }

  class Snapshot {
    var runCount: int
    var alerts: map<string, KeyState>

    ghost function Repr(): set<object>
      reads this
    {
      {this} + alerts.Values
    }

    /** No two keys share a record. */
    ghost predicate Valid()
      reads this
    {
      forall a, b :: a in alerts && b in alerts && a != b ==> alerts[a] != alerts[b]
    }

    ghost function View(): Alerts
      reads Repr()
    {
      map key | key in alerts :: alerts[key].View()
    }

    /** The view, read off record by record. */
    lemma {:induction false} ViewIs(m: Alerts)
      requires alerts.Keys == m.Keys
      requires forall key :: key in alerts ==> alerts[key].View() == m[key]
      ensures View() == m
    {
    }

    /** One record written, the others as they were. */
    lemma {:induction false} ViewPut(m: Alerts, key: string, r: KeyRecord)
      requires alerts.Keys == m.Keys + {key} && alerts[key].View() == r
      requires forall k :: k in alerts && k != key ==> alerts[k].View() == m[k]
      ensures View() == Store(m, key, Some(r))
    {
      ViewIs(Store(m, key, Some(r)));
    }

    /** Reads a durable snapshot into fresh records. */
    constructor (count: int, stored: Alerts)
      ensures Valid() && fresh(Repr())
      ensures runCount == count && View() == stored
    {
      runCount, alerts := count, map[];
      new;
      var todo := stored.Keys;
      while todo != {}
        invariant Valid() && fresh(Repr()) && runCount == count
        invariant todo <= stored.Keys && alerts.Keys == stored.Keys - todo
        invariant forall key :: key in alerts ==> alerts[key].View() == stored[key]
        decreases todo
      {
        var key :| key in todo;
        var ks := new KeyState(stored[key]);
        alerts := alerts[key := ks];
        todo := todo - {key};
      }
    }

    /** Encodes the records as durable values. */
    method Encode() returns (stored: Alerts)
      ensures stored == View()
    {
      stored := map[];
      var todo := alerts.Keys;
      while todo != {}
        invariant todo <= alerts.Keys && stored.Keys == alerts.Keys - todo
        invariant forall key :: key in stored ==> stored[key] == alerts[key].View()
        decreases todo
      {
        var key :| key in todo;
        var r := alerts[key].Record();
        stored := stored[key := r];
        todo := todo - {key};
      }
    }

    method HandleUnknown(ks: KeyState?, o: Observation, env: Env) returns (sent: seq<Decision>)
      requires Valid()
      requires if ks == null then o.Key() !in alerts else o.Key() in alerts && alerts[o.Key()] == ks
      modifies alerts.Values
      ensures Valid() && alerts == old(alerts)
      ensures var r := StepUnknown(Lookup(old(View()), o.Key()), o, env);
              View() == Store(old(View()), o.Key(), r.state) && sent == r.sent
    {
      if ks == null {
        return [];
      }
      ks.lastSeenRun := env.runID;
      sent := [];
      if ks.status == FIRING && !ks.degradedNotified {
        ks.degradedNotified := true;
        var a := BuildAlert(o, ks.tier, DEGRADED, env).(measured := CANNOT_MEASURE);
        sent := [Decision(a, ks.notifiedTargets)];
      }
    }

    /** Count the breach. */
    method CountBreach(ks: KeyState, o: Observation, env: Env, ghost prior: Option<KeyRecord>)
      requires ks.View() == if prior.Some? then prior.value else NewRecord(o, env)
      modifies ks
      ensures ks.View() == CountBad(prior, o, env)
    {
      ks.Clamp(env.now);
      ks.lastSeenRun := env.runID;
      ks.lastMeasured := o.measured;
      ks.degradedNotified := false;
      ks.consecutiveOK := 0;
      ks.consecutiveBad := ks.consecutiveBad + 1;
    }

    /** Fire, escalate, de-escalate, remind or stay silent, the breach being counted. */
    method DecideBad(cfg: Config, ks: KeyState, o: Observation, env: Env, ghost prior: Option<KeyRecord>)
      returns (sent: seq<Decision>)
      requires ks.View() == CountBad(prior, o, env)
      modifies ks
      ensures Outcome(Some(ks.View()), sent) == StepBad(cfg, prior, o, env)
    {
      if ks.status == PENDING {
        if ks.consecutiveBad < FlapSamplesFor(cfg, o.check, o.tier) {
          return [];
        }
        ks.status := FIRING;
        ks.tier := o.tier;
        ks.firedAt := env.now;
        ks.lastNotified := env.now;
        ks.lastTierNotified := o.tier;
        var targets := ComputeRouteTargets(cfg, o.tier);
        ks.notifiedTargets := UnionTargets(ks.notifiedTargets, targets);
        return Notify(BuildAlert(o, o.tier, FIRE, env), targets);
      }
      if o.tier > ks.tier {
        ks.tier := o.tier;
        ks.lastTierNotified := o.tier;
        ks.lastNotified := env.now;
        var targets := ComputeRouteTargets(cfg, o.tier);
        ks.notifiedTargets := UnionTargets(ks.notifiedTargets, targets);
        return Notify(BuildAlert(o, o.tier, ESCALATE, env), targets);
      } else if o.tier < ks.tier {
        ks.tier := o.tier;
        ks.lastTierNotified := o.tier;
        ks.lastNotified := env.now;
        return [];
      } else if env.now - ks.lastNotified >= CooldownFor(cfg, o.check, ks.tier) {
        ks.lastNotified := env.now;
        var targets := ComputeRouteTargets(cfg, ks.tier);
        ks.notifiedTargets := UnionTargets(ks.notifiedTargets, targets);
        return Notify(BuildAlert(o, ks.tier, REMINDER, env), targets);
      }
      return [];
    }

    method RecordBad(cfg: Config, ks: KeyState, o: Observation, env: Env, ghost prior: Option<KeyRecord>)
      returns (sent: seq<Decision>)
      requires ks.View() == if prior.Some? then prior.value else NewRecord(o, env)
      modifies ks
      ensures Outcome(Some(ks.View()), sent) == StepBad(cfg, prior, o, env)
    {
      CountBreach(ks, o, env, prior);
      sent := DecideBad(cfg, ks, o, env, prior);
    }

    method HandleBad(cfg: Config, prior: KeyState?, o: Observation, env: Env) returns (sent: seq<Decision>)
      requires Valid()
      requires if prior == null then o.Key() !in alerts else o.Key() in alerts && alerts[o.Key()] == prior
      modifies this`alerts, alerts.Values
      ensures Valid() && fresh(Repr() - old(Repr()))
      ensures var r := StepBad(cfg, Lookup(old(View()), o.Key()), o, env);
              View() == Store(old(View()), o.Key(), r.state) && sent == r.sent
    {
      ghost var m := View();
      var ks: KeyState;
      if prior == null {
        ks := new KeyState(NewRecord(o, env));
        alerts := alerts[o.Key() := ks];
      } else {
        ks := prior;
      }
      assert Valid();
      sent := RecordBad(cfg, ks, o, env, Lookup(m, o.Key()));
      assert forall k :: k in alerts && k != o.Key() ==> alerts[k].View() == m[k];
      ViewPut(m, o.Key(), ks.View());
    }

    /** Count the recovery of a firing record. */
    method RecordOK(ks: KeyState, env: Env)
      modifies ks
      ensures var k := old(ks.View());
              ks.View() == ClampClock(k, env.now).(
                lastSeenRun := env.runID, degradedNotified := false,
                consecutiveBad := if k.status == PENDING then k.consecutiveBad else 0,
                consecutiveOK := if k.status == PENDING then k.consecutiveOK else k.consecutiveOK + 1)
    {
      ks.Clamp(env.now);
      ks.lastSeenRun := env.runID;
      ks.degradedNotified := false;
      if ks.status == PENDING {
        return;
      }
      ks.consecutiveBad := 0;
      ks.consecutiveOK := ks.consecutiveOK + 1;
    }

    method Delete(key: string)
      requires Valid()
      modifies this`alerts
      ensures Valid() && Repr() <= old(Repr())
      ensures View() == Store(old(View()), key, None)
    {
      ghost var m := View();
      alerts := alerts - {key};
      ViewIs(Store(m, key, None));
    }

    method HandleOK(cfg: Config, ks: KeyState?, o: Observation, env: Env) returns (sent: seq<Decision>)
      requires Valid()
      requires if ks == null then o.Key() !in alerts else o.Key() in alerts && alerts[o.Key()] == ks
      modifies this`alerts, alerts.Values
      ensures Valid() && Repr() <= old(Repr())
      ensures var r := StepOK(cfg, Lookup(old(View()), o.Key()), o, env);
              View() == Store(old(View()), o.Key(), r.state) && sent == r.sent
    {
      ghost var m := View();
      ghost var r := StepOK(cfg, Lookup(m, o.Key()), o, env);
      if ks == null {
        assert r == Outcome(None, []) && Store(m, o.Key(), None) == m;
        return [];
      }
      RecordOK(ks, env);
      ViewPut(m, o.Key(), ks.View());
      if ks.status == PENDING {
        assert r == Outcome(None, []);
        Delete(o.Key());
        StoreTwice(m, o.Key(), ks.View());
        return [];
      }
      if ks.consecutiveOK < cfg.resolveSamples {
        assert r == Outcome(Some(ks.View()), []);
        return [];
      }
      var targets := ks.notifiedTargets;
      var a := BuildAlert(o, ks.tier, RESOLVED, env);
      sent := Notify(a, targets);
      assert r == Outcome(None, sent);
      Delete(o.Key());
      StoreTwice(m, o.Key(), ks.View());
    }

    /** One observation: the prior record, the mute rule, and the handler. */
    method Handle(cfg: Config, o: Observation, env: Env) returns (sent: seq<Decision>)
      requires Valid()
      modifies this`alerts, alerts.Values
      ensures Valid() && fresh(Repr() - old(Repr()))
      ensures var r := Step(cfg, Lookup(old(View()), o.Key()), o, env);
              View() == Store(old(View()), o.Key(), r.state) && sent == r.sent
    {
      var key := o.Key();
      var ks: KeyState? := if key in alerts then alerts[key] else null;
      if o.suppressed && ks == null {
        assert Store(View(), key, None) == View();
        return [];
      }
      match o.health {
        case UNKNOWN => sent := HandleUnknown(ks, o, env);
        case BAD => sent := HandleBad(cfg, ks, o, env);
        case OK => sent := HandleOK(cfg, ks, o, env);
      }
      if o.suppressed {
        sent := [];
      }
    }

    method ObserveAll(cfg: Config, obs: seq<Observation>, env: Env) returns (decisions: seq<Decision>)
      requires Valid()
      modifies this`alerts, alerts.Values
      ensures Valid() && fresh(Repr() - old(Repr()))
      ensures Advanced(View(), decisions) == Observe(cfg, old(View()), obs, env)
    {
      ghost var m := View();
      decisions := [];
      for i := 0 to |obs|
        invariant Valid() && fresh(Repr() - old(Repr()))
        invariant Advanced(View(), decisions) == Observe(cfg, m, obs[..i], env)
      {
        assert obs[..i + 1][..i] == obs[..i];
        var sent := Handle(cfg, obs[i], env);
        decisions := decisions + sent;
      }
      assert obs[..|obs|] == obs;
    }

    /** The checks that collapsed to one coarse observation this run. */
    static method SourcesDown(obs: seq<Observation>) returns (down: set<string>)
      ensures down == DownChecks(obs)
    {
      down := {};
      for i := 0 to |obs|
        invariant down == DownChecks(obs[..i])
      {
        assert obs[..i + 1] == obs[..i] + [obs[i]];
        if Coarse(obs[i]) {
          down := down + {obs[i].check};
        }
      }
      assert obs[..|obs|] == obs;
    }

    /** Freezes one firing record of an unavailable source, with one notice. */
    method MarkUnavailable(key: string, ks: KeyState, env: Env) returns (sent: seq<Decision>)
      requires ks.status == FIRING && ks.lastSeenRun != env.runID
      modifies ks
      ensures Outcome(Some(ks.View()), sent) == Sweep(key, Some(old(ks.View())), env)
    {
      ks.lastSeenRun := env.runID;
      if ks.degradedNotified {
        return [];
      }
      ks.degradedNotified := true;
      var a := Alert(ks.tier, DEGRADED, "Monitoring degraded", env.host, ScopeOf(key), SOURCE_UNAVAILABLE,
                     "", "", key, CheckOf(key), env.now, env.runID);
      sent := [Decision(a, ks.notifiedTargets)];
    }

    /** The records done so far are swept, the others untouched. */
    ghost predicate Sweeping(m: Alerts, down: set<string>, env: Env, todo: set<string>)
      reads Repr()
    {
      && alerts.Keys == m.Keys
      && forall k :: k in alerts ==>
           alerts[k].View() == if k in todo then m[k] else SweepKey(m, down, env, k).state.value
    }

    /** One step of the sweep: skip what is quiet, already seen or still measurable. */
    method SweepOne(key: string, down: set<string>, env: Env, ghost m: Alerts, ghost todo: set<string>)
      returns (sent: seq<Decision>)
      requires Valid() && key in todo && key in alerts && Sweeping(m, down, env, todo)
      modifies alerts[key]
      ensures Sweeping(m, down, env, todo - {key})
      ensures sent == SweepKey(m, down, env, key).sent
    {
      var ks := alerts[key];
      if ks.status != FIRING || ks.lastSeenRun == env.runID {
        return [];
      }
      if CheckOf(key) !in down {
        return [];
      }
      sent := MarkUnavailable(key, ks, env);
    }

    method SweepDegraded(down: set<string>, env: Env) returns (decisions: seq<Decision>, order: seq<string>)
      requires Valid()
      modifies alerts.Values
      ensures Valid() && alerts == old(alerts)
      ensures Sweeps(old(View()), down, env, order, Advanced(View(), decisions))
    {
      ghost var m := View();
      decisions, order := [], [];
      var todo := alerts.Keys;
      ghost var done := {};
      while todo != {}
        invariant Valid() && alerts == old(alerts)
        invariant todo !! done && todo + done == m.Keys
        invariant Sweeping(m, down, env, todo)
        invariant SweptSoFar(m, down, env, done, order, decisions)
        decreases todo
      {
        var key :| key in todo;
        var sent := SweepOne(key, down, env, m, todo);
        SweepOneMore(m, down, env, done, order, decisions, key);
        todo, done := todo - {key}, done + {key};
        decisions := decisions + sent;
        if sent != [] {
          order := order + [key];
        }
      }
      SweepDone(m, down, env, done, order, decisions);
      ViewIs(SweepAll(m, down, env));
    }

    /** Runs the machine of every observed key, then the outage sweep. `order` is the
        order in which the sweep met the keys it spoke about. */
    method Advance(cfg: Config, obs: seq<Observation>, env: Env)
      returns (decisions: seq<Decision>, order: seq<string>)
      requires Valid()
      modifies this`alerts, alerts.Values
      ensures Valid() && fresh(Repr() - old(Repr()))
      ensures Advances(cfg, old(View()), Run(obs, env, order), Advanced(View(), decisions))
    {
      ghost var m := View();
      decisions := ObserveAll(cfg, obs, env);
      ghost var seen := Advanced(View(), decisions);
      var down := SourcesDown(obs);
      assert View() == seen.alerts;
      var swept;
      swept, order := SweepDegraded(down, env);
      AdvanceInParts(cfg, m, obs, env, order, seen, Advanced(View(), swept));
      decisions := decisions + swept;
    }

    method PrunePendingAlerts(currentRun: int)
      requires Valid()
      modifies this`alerts
      ensures Valid() && Repr() <= old(Repr())
      ensures View() == PruneAll(old(View()), currentRun)
    {
      var todo := alerts.Keys;
      while todo != {}
        invariant Valid() && todo <= alerts.Keys <= old(alerts.Keys)
        invariant forall k :: k in alerts ==> alerts[k] == old(alerts)[k]
        invariant forall k :: k in old(alerts) && k !in todo ==>
                    (k in alerts <==> Prune(Some(old(View())[k]), currentRun).Some?)
        decreases todo
      {
        var key :| key in todo;
        todo := todo - {key};
        if alerts[key].status == PENDING && alerts[key].lastSeenRun != currentRun {
          alerts := alerts - {key};
        }
      }
    }
  }
}

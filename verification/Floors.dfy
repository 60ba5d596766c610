/** Two promises about channels that hold for some configurations only, with the
    condition on the configuration: that no channel hears of a tier below its floor,
    and that no decision names a channel twice. */
module Floors {
  import opened Types
  import opened Route
  import opened KeyMachine
  import opened Recipients
  import opened Scripts

  /** A breach of memory pressure, a check that has every tier. */
  function Breach(tier: Tier): Observation {
    Observation("mem_pressure", "host", BAD, tier, "Memory pressure", "", "", "", 0.0, "", "", "", map[], false, "")
  }

  const MEMORY: string := "mem_pressure:host"

  lemma {:induction false} BreachIsReal(tier: Tier)
    ensures OfKey(Breach(tier), MEMORY) && OfKey(Breach(tier).(health := UNKNOWN), MEMORY)
  {
  }

  lemma {:induction false} EventsSend(cfg: Config, key: string, h: seq<Event>, d: Decision) returns (n: nat)
    requires d in Exec(cfg, key, None, h).sent
    ensures n < |h| && d in Apply(cfg, key, StateAfter(cfg, key, h[..n]), h[n]).sent
  {
    n := |h| - 1;
    if d !in Apply(cfg, key, StateAfter(cfg, key, h[..n]), h[n]).sent {
      n := EventsSend(cfg, key, h[..n], d);
      assert h[..|h| - 1][..n] == h[..n];
    }
  }

  // ---- floors ----

  predicate AtOrAboveFloor(cfg: Config, d: Decision) {
    forall x :: x in d.targets ==> Admits(cfg, x, d.alert.tier)
  }

  /** Every channel that is routed at all admits the lowest tier. */
  ghost predicate FloorsAtWarn(cfg: Config) {
    forall t: Tier, x :: x in RouteTargets(cfg, t) ==> Admits(cfg, x, WARN)
  }

  ghost predicate NotifiedAdmitWarn(cfg: Config, s: Option<KeyRecord>) {
    s.Some? ==> forall x :: x in s.value.notifiedTargets ==> Admits(cfg, x, WARN)
  }

  lemma {:induction false} WarnStep(cfg: Config, key: string, s: Option<KeyRecord>, e: Event)
    requires FloorsAtWarn(cfg) && NotifiedAdmitWarn(cfg, s)
    ensures NotifiedAdmitWarn(cfg, Apply(cfg, key, s, e).state)
  {
    if e.Seen? && e.o.health == BAD {
      UnionKeeps(CountBad(s, e.o, e.env).notifiedTargets, RouteTargets(cfg, e.o.tier));
    }
  }

  lemma {:induction false} NotifiedAlwaysAdmitWarn(cfg: Config, key: string, h: seq<Event>)
    requires FloorsAtWarn(cfg)
    ensures NotifiedAdmitWarn(cfg, StateAfter(cfg, key, h))
  {
    if h != [] {
      var n := |h| - 1;
      NotifiedAlwaysAdmitWarn(cfg, key, h[..n]);
      WarnStep(cfg, key, StateAfter(cfg, key, h[..n]), h[n]);
    }
  }

  lemma {:induction false} FloorKept(cfg: Config, key: string, h: seq<Event>, e: Event, d: Decision)
    requires FloorsAtWarn(cfg) && d in Apply(cfg, key, StateAfter(cfg, key, h), e).sent
    ensures AtOrAboveFloor(cfg, d)
  {
    var s := StateAfter(cfg, key, h);
    if FollowsEpisode(d.alert.kind) {
      NotifiedAlwaysAdmitWarn(cfg, key, h);
      FollowUpGoesToNotified(cfg, key, s, e, d);
    } else {
      FloorsRespected(cfg, key, s, e, d);
    }
  }

  lemma {:induction false} AllFloorsKept(cfg: Config, key: string, ticks: seq<Tick>, d: Decision)
    requires FloorsAtWarn(cfg) && d in ExecTicks(cfg, key, ticks).sent
    ensures AtOrAboveFloor(cfg, d)
  {
    var h := History(ticks);
    var n := EventsSend(cfg, key, h, d);
    FloorKept(cfg, key, h[..n], h[n], d);
  }

  /** What a silently improved and then unreadable key says. */
  lemma {:induction false} ImproveThenBlind(cfg: Config, s: Option<KeyRecord>, t: Tier, x: string, e1: Env, e2: Env)
    requires JustFired(cfg, s, Breach(t)) && t > WARN && x in RouteTargets(cfg, t)
    ensures var calm := Step(cfg, s, Breach(WARN), e1).state;
            var sent := Step(cfg, calm, Breach(WARN).(health := UNKNOWN), e2).sent;
            |sent| == 1 && sent[0].alert.kind == DEGRADED && sent[0].alert.tier == WARN && x in sent[0].targets
  {
    UnionKeeps([], RouteTargets(cfg, t));
  }

  lemma {:induction false} FloorScript(t: Tier, n: nat)
    ensures Possible(Script(Times(Breach(t), n) + [[Breach(WARN)]] + [[Breach(WARN).(health := UNKNOWN)]]), MEMORY, 1)
  {
    var fired, calm, blind := Times(Breach(t), n), Breach(WARN), Breach(WARN).(health := UNKNOWN);
    BreachIsReal(t);
    BreachIsReal(WARN);
    TimesOfKey([], Breach(t), n, MEMORY, 1);
    TimesOfKey(fired, calm, 0, MEMORY, 1);
    TimesOfKey(fired + [[calm]], blind, 0, MEMORY, 1);
    ScriptIsPossible(fired + [[calm]] + [[blind]], MEMORY, 1);
  }

  lemma {:induction false} LastRunSends(
      cfg: Config, key: string, runs: seq<seq<Observation>>, o: Observation, d: Decision)
    requires d in Step(cfg, Ends(cfg, key, runs), o, RunEnv(|runs| + 1)).sent
    ensures d in ExecTicks(cfg, key, Script(runs + [[o]])).sent
  {
    OneMoreRun(cfg, key, runs, o);
  }

  /** Any channel with a floor above WARN that some tier is routed to can be told of a
      tier below it: memory pressure fires at that tier, improves to WARN in silence, and
      then cannot be read, one observation a run. */
  lemma {:induction false} DegradedGoesBelowFloor(cfg: Config, t: Tier, x: string)
    returns (ticks: seq<Tick>, d: Decision)
    requires cfg.Valid() && x in RouteTargets(cfg, t) && !Admits(cfg, x, WARN)
    ensures Possible(ticks, MEMORY, 1) && d in ExecTicks(cfg, MEMORY, ticks).sent
    ensures d.alert.kind == DEGRADED && d.alert.tier == WARN && x in d.targets && !AtOrAboveFloor(cfg, d)
  {
    var calm, blind := Breach(WARN), Breach(WARN).(health := UNKNOWN);
    assert t > WARN by { AdmittedExact(cfg, cfg.TargetsFor(t), t); }
    ThresholdPositive(cfg, Breach(t));
    var n := BadsFire(cfg, MEMORY, Breach(t));
    var fired := Times(Breach(t), n);
    ImproveThenBlind(cfg, Ends(cfg, MEMORY, fired), t, x, RunEnv(n + 1), RunEnv(n + 2));
    OneMoreRun(cfg, MEMORY, fired, calm);
    d := Step(cfg, Ends(cfg, MEMORY, fired + [[calm]]), blind, RunEnv(n + 2)).sent[0];
    ticks := Script(fired + [[calm]] + [[blind]]);
    LastRunSends(cfg, MEMORY, fired + [[calm]], blind, d);
    FloorScript(t, n);
  }

  /** No channel is ever told of a tier below its floor, over all keys and all histories
      the program can meet, if and only if every channel that is routed at all admits
      WARN: floors above the lowest tier are not kept by what follows an episode. */
  lemma {:induction false} FloorsHoldExactly(cfg: Config)
    requires cfg.Valid()
    ensures (forall key, ticks, d :: Possible(ticks, key, 1) && d in ExecTicks(cfg, key, ticks).sent
               ==> AtOrAboveFloor(cfg, d))
            <==> FloorsAtWarn(cfg)
  {
    if FloorsAtWarn(cfg) {
      forall key, ticks, d | Possible(ticks, key, 1) && d in ExecTicks(cfg, key, ticks).sent
        ensures AtOrAboveFloor(cfg, d)
      {
        AllFloorsKept(cfg, key, ticks, d);
      }
    } else {
      var t: Tier, x :| x in RouteTargets(cfg, t) && !Admits(cfg, x, WARN);
      var ticks, d := DegradedGoesBelowFloor(cfg, t, x);
    }
  }

  // ---- one notice per channel ----

  ghost predicate RoutesOnce(cfg: Config) {
    forall t: Tier :: NoDuplicates(RouteTargets(cfg, t))
  }

  lemma {:induction false} NoticeOnce(cfg: Config, key: string, h: seq<Event>, e: Event, d: Decision)
    requires RoutesOnce(cfg) && d in Apply(cfg, key, StateAfter(cfg, key, h), e).sent
    ensures NoDuplicates(d.targets)
  {
    if FollowsEpisode(d.alert.kind) {
      NotifiedCovers(cfg, key, h);
      FollowUpGoesToNotified(cfg, key, StateAfter(cfg, key, h), e, d);
    } else {
      assert d.targets == RouteTargets(cfg, d.alert.tier);
    }
  }

  lemma {:induction false} AllNoticesOnce(cfg: Config, key: string, ticks: seq<Tick>, d: Decision)
    requires RoutesOnce(cfg) && d in ExecTicks(cfg, key, ticks).sent
    ensures NoDuplicates(d.targets)
  {
    var h := History(ticks);
    var n := EventsSend(cfg, key, h, d);
    NoticeOnce(cfg, key, h[..n], h[n], d);
  }

  lemma {:induction false} FireNamesTwice(cfg: Config, t: Tier) returns (ticks: seq<Tick>, d: Decision)
    requires cfg.Valid() && !NoDuplicates(RouteTargets(cfg, t))
    ensures Possible(ticks, MEMORY, 1) && d in ExecTicks(cfg, MEMORY, ticks).sent
    ensures !NoDuplicates(d.targets)
  {
    BreachIsReal(t);
    ThresholdPositive(cfg, Breach(t));
    var n := BadsFire(cfg, MEMORY, Breach(t));
    TimesOfKey([], Breach(t), n, MEMORY, 1);
    ticks := Script(Times(Breach(t), n));
    ScriptIsPossible(Times(Breach(t), n), MEMORY, 1);
    FireIsSent(cfg, MEMORY, Breach(t), n);
    var sent := Notify(BuildAlert(Breach(t), t, FIRE, RunEnv(n)), RouteTargets(cfg, t));
    d := sent[0];
    assert d in sent;
  }

  /** No decision names a channel twice, over all keys and all histories the program can
      meet, if and only if no tier's routing table lists a defined channel that its floor
      admits twice. */
  lemma {:induction false} OneNoticePerChannelExactly(cfg: Config)
    requires cfg.Valid()
    ensures (forall key, ticks, d :: Possible(ticks, key, 1) && d in ExecTicks(cfg, key, ticks).sent
               ==> NoDuplicates(d.targets))
            <==> RoutesOnce(cfg)
  {
    if RoutesOnce(cfg) {
      forall key, ticks, d | Possible(ticks, key, 1) && d in ExecTicks(cfg, key, ticks).sent
        ensures NoDuplicates(d.targets)
      {
        AllNoticesOnce(cfg, key, ticks, d);
      }
    } else {
      var t: Tier :| !NoDuplicates(RouteTargets(cfg, t));
      var ticks, d := FireNamesTwice(cfg, t);
    }
  }
}

/** The alert machine of one key "check:scope", as a function of the key's record
    and one event. Every later result about alerting is stated over this machine;
    the in-place implementation is proved equal to it in Snapshots. */
module KeyMachine {
  import opened Types
  import opened Route

  datatype Status = PENDING | FIRING

  /** The persisted memory of one key. */
  datatype KeyRecord = KeyRecord(
    status: Status,
    tier: Tier,
    consecutiveBad: int,
    consecutiveOK: int,
    firstDetected: int,
    firedAt: int,
    lastNotified: int,
    lastTierNotified: Tier,
    notifiedTargets: seq<string>,
    lastMeasured: string,
    lastSeenRun: int,
    degradedNotified: bool)

  /** What a transition leaves behind and what it asks to deliver. */
  datatype Outcome = Outcome(state: Option<KeyRecord>, sent: seq<Decision>)

  predicate Firing(s: Option<KeyRecord>) { s.Some? && s.value.status == FIRING }

  predicate Pending(s: Option<KeyRecord>) { s.Some? && s.value.status == PENDING }

  // ---- keys ----

  /** Index of the first colon, or the length when there is none. */
  function FirstColon(key: string): (i: nat)
    ensures i <= |key|
    ensures i < |key| ==> key[i] == ':'
    ensures forall j :: 0 <= j < i ==> key[j] != ':'
  {
    if key == [] || key[0] == ':' then 0 else 1 + FirstColon(key[1..])
  }

  function CheckOf(key: string): string { key[..FirstColon(key)] }

  function ScopeOf(key: string): string {
    var i := FirstColon(key);
    if i < |key| then key[i + 1..] else key
  }

  lemma {:induction false} FirstColonEndsCheck(check: string, scope: string)
    requires ':' !in check
    ensures FirstColon(check + ":" + scope) == |check|
  {
    if check != [] {
      assert (check + ":" + scope)[1..] == check[1..] + ":" + scope;
      assert check[0] != ':';
      FirstColonEndsCheck(check[1..], scope);
    }
  }

  /** A key built from a colon-free check id splits back into its parts, whatever
      the scope contains, so such keys never collide. */
  lemma {:induction false} KeySplits(o: Observation)
    requires ':' !in o.check
    ensures CheckOf(o.Key()) == o.check && ScopeOf(o.Key()) == o.scope
  {
    FirstColonEndsCheck(o.check, o.scope);
  }

  // ---- transitions ----

  const CANNOT_MEASURE := "monitoring degraded — could not measure this run"
  const SOURCE_UNAVAILABLE := "monitoring degraded — source unavailable this run"

  function BuildAlert(o: Observation, tier: Tier, kind: Kind, env: Env): Alert {
    Alert(tier, kind, o.title, env.host, o.scope, o.measured, o.threshold, o.fix,
          o.Key(), o.check, env.now, env.runID)
  }

  /** A notification with no channel is not delivered. */
  function Notify(a: Alert, targets: seq<string>): seq<Decision> {
    if targets == [] then [] else [Decision(a, targets)]
  }

  /** A backward clock step pulls the remembered instants back to now. */
  function ClampClock(k: KeyRecord, now: int): KeyRecord {
    k.(lastNotified := Min(now, k.lastNotified), firstDetected := Min(now, k.firstDetected))
  }

  function StepUnknown(s: Option<KeyRecord>, o: Observation, env: Env): Outcome {
    if s.None? then Outcome(None, [])
    else
      var k := s.value.(lastSeenRun := env.runID);
      if k.status == FIRING && !k.degradedNotified then
        Outcome(Some(k.(degradedNotified := true)),
                [Decision(BuildAlert(o, k.tier, DEGRADED, env).(measured := CANNOT_MEASURE),
                          k.notifiedTargets)])
      else
        Outcome(Some(k), [])
  }

  function NewRecord(o: Observation, env: Env): KeyRecord {
    KeyRecord(PENDING, o.tier, 0, 0, env.now, ZERO_TIME, ZERO_TIME, WARN, [], "", 0, false)
  }

  /** The bookkeeping every BAD observation does before any decision. */
  function CountBad(s: Option<KeyRecord>, o: Observation, env: Env): KeyRecord {
    var k := if s.Some? then s.value else NewRecord(o, env);
    ClampClock(k, env.now).(
      lastSeenRun := env.runID, lastMeasured := o.measured, degradedNotified := false,
      consecutiveOK := 0, consecutiveBad := k.consecutiveBad + 1)
  }

  function StepBad(cfg: Config, s: Option<KeyRecord>, o: Observation, env: Env): Outcome {
    var k := CountBad(s, o, env);
    var targets := RouteTargets(cfg, o.tier);
    var notified := k.(tier := o.tier, lastTierNotified := o.tier, lastNotified := env.now,
                       notifiedTargets := Union(k.notifiedTargets, targets));
    if k.status == PENDING then
      if k.consecutiveBad < FlapSamplesFor(cfg, o.check, o.tier) then
        Outcome(Some(k), [])
      else
        Outcome(Some(notified.(status := FIRING, firedAt := env.now)),
                Notify(BuildAlert(o, o.tier, FIRE, env), targets))
    else if o.tier > k.tier then
      Outcome(Some(notified), Notify(BuildAlert(o, o.tier, ESCALATE, env), targets))
    else if o.tier < k.tier then
      Outcome(Some(k.(tier := o.tier, lastTierNotified := o.tier, lastNotified := env.now)), [])
    else if env.now - k.lastNotified >= CooldownFor(cfg, o.check, k.tier) then
      Outcome(Some(k.(lastNotified := env.now, notifiedTargets := Union(k.notifiedTargets, targets))),
              Notify(BuildAlert(o, k.tier, REMINDER, env), targets))
    else
      Outcome(Some(k), [])
  }

  function StepOK(cfg: Config, s: Option<KeyRecord>, o: Observation, env: Env): Outcome {
    if !Firing(s) then Outcome(None, [])
    else
      var k := ClampClock(s.value, env.now).(
                 lastSeenRun := env.runID, degradedNotified := false,
                 consecutiveBad := 0, consecutiveOK := s.value.consecutiveOK + 1);
      if k.consecutiveOK < cfg.resolveSamples then
        Outcome(Some(k), [])
      else
        Outcome(None, Notify(BuildAlert(o, k.tier, RESOLVED, env), k.notifiedTargets))
  }

  /** One observation. A mute drops the send; with no prior record it keeps the
      observation out of the machine altogether. */
  function Step(cfg: Config, s: Option<KeyRecord>, o: Observation, env: Env): Outcome {
    if o.suppressed && s.None? then Outcome(None, [])
    else
      var r := match o.health
        case UNKNOWN => StepUnknown(s, o, env)
        case BAD => StepBad(cfg, s, o, env)
        case OK => StepOK(cfg, s, o, env);
      if o.suppressed then r.(sent := []) else r
  }

  function SweepDecision(key: string, k: KeyRecord, env: Env): Decision {
    Decision(Alert(k.tier, DEGRADED, "Monitoring degraded", env.host, ScopeOf(key), SOURCE_UNAVAILABLE,
                   "", "", key, CheckOf(key), env.now, env.runID),
             k.notifiedTargets)
  }

  /** The whole-source outage sweep, for a key whose check's source is down. */
  function Sweep(key: string, s: Option<KeyRecord>, env: Env): Outcome {
    if !Firing(s) || s.value.lastSeenRun == env.runID then Outcome(s, [])
    else
      var k := s.value.(lastSeenRun := env.runID);
      if k.degradedNotified then Outcome(Some(k), [])
      else Outcome(Some(k.(degradedNotified := true)), [SweepDecision(key, k, env)])
  }

  /** Pending keys not seen in the run are forgotten; firing keys are kept. */
  function Prune(s: Option<KeyRecord>, runID: int): Option<KeyRecord> {
    if Pending(s) && s.value.lastSeenRun != runID then None else s
  }

  // ---- traces ----

  datatype Event =
    | Seen(o: Observation, env: Env)
    | SourceDown(env: Env)
    | RunEnd(runID: int)
  {
    /** An observation that could be taken, good or bad. */
    predicate Measured() { Seen? && o.Measured() }
  }

  function Apply(cfg: Config, key: string, s: Option<KeyRecord>, e: Event): Outcome {
    match e
    case Seen(o, env) => Step(cfg, s, o, env)
    case SourceDown(env) => Sweep(key, s, env)
    case RunEnd(runID) => Outcome(Prune(s, runID), [])
  }

  function Exec(cfg: Config, key: string, s: Option<KeyRecord>, h: seq<Event>): Outcome {
    if h == [] then Outcome(s, [])
    else
      var n := |h| - 1;
      var before := Exec(cfg, key, s, h[..n]);
      var after := Apply(cfg, key, before.state, h[n]);
      Outcome(after.state, before.sent + after.sent)
  }

  /** A key's state after a history that starts from an empty state file. */
  function StateAfter(cfg: Config, key: string, h: seq<Event>): Option<KeyRecord> {
    Exec(cfg, key, None, h).state
  }

  lemma {:induction false} ExecSnoc(cfg: Config, key: string, s: Option<KeyRecord>, h: seq<Event>, e: Event)
    ensures var before := Exec(cfg, key, s, h);
            var after := Apply(cfg, key, before.state, e);
            Exec(cfg, key, s, h + [e]) == Outcome(after.state, before.sent + after.sent)
  {
    assert (h + [e])[..|h|] == h;
  }

  lemma {:induction false} ConcatAssociates(a: seq<Decision>, b: seq<Decision>, c: seq<Decision>)
    ensures (a + b) + c == a + (b + c)
  {
  }

  lemma {:induction false} ExecConcat(cfg: Config, key: string, s: Option<KeyRecord>, a: seq<Event>, b: seq<Event>)
    ensures var ra := Exec(cfg, key, s, a);
            var rb := Exec(cfg, key, ra.state, b);
            Exec(cfg, key, s, a + b) == Outcome(rb.state, ra.sent + rb.sent)
  {
    var ra := Exec(cfg, key, s, a);
    if b == [] {
      assert a + b == a && ra.sent + [] == ra.sent;
    } else {
      var n := |b| - 1;
      var h := a + b[..n];
      ExecConcat(cfg, key, s, a, b[..n]);
      assert (a + b)[..|a + b| - 1] == h && (a + b)[|a + b| - 1] == b[n];
      var rb := Exec(cfg, key, ra.state, b[..n]);
      ConcatAssociates(ra.sent, rb.sent, Apply(cfg, key, rb.state, b[n]).sent);
    }
  }

  /** One run as one key sees it: its own observations in order, and whether its
      check collapsed to a coarse "docker" UNKNOWN this run. */
  datatype Tick = Tick(obs: seq<Observation>, down: bool, env: Env)

  function Sightings(obs: seq<Observation>, env: Env): seq<Event> {
    seq(|obs|, i requires 0 <= i < |obs| => Seen(obs[i], env))
  }

  function EventsOf(t: Tick): seq<Event> {
    Sightings(t.obs, t.env) + (if t.down then [SourceDown(t.env)] else []) + [RunEnd(t.env.runID)]
  }

  function History(ticks: seq<Tick>): seq<Event> {
    if ticks == [] then []
    else History(ticks[..|ticks| - 1]) + EventsOf(ticks[|ticks| - 1])
  }

  function ExecTick(cfg: Config, key: string, s: Option<KeyRecord>, t: Tick): Outcome {
    Exec(cfg, key, s, EventsOf(t))
  }

  function ExecTicks(cfg: Config, key: string, ticks: seq<Tick>): Outcome {
    Exec(cfg, key, None, History(ticks))
  }

  lemma {:induction false} ExecTicksSnoc(cfg: Config, key: string, ticks: seq<Tick>, t: Tick)
    ensures var before := ExecTicks(cfg, key, ticks);
            var after := ExecTick(cfg, key, before.state, t);
            ExecTicks(cfg, key, ticks + [t]) == Outcome(after.state, before.sent + after.sent)
  {
    assert (ticks + [t])[..|ticks|] == ticks;
    ExecConcat(cfg, key, None, History(ticks), EventsOf(t));
  }

  /** A run is its observations, then the sweep, then the prune. */
  lemma {:induction false} ExecTickParts(cfg: Config, key: string, s: Option<KeyRecord>, t: Tick)
    ensures var seen := Exec(cfg, key, s, Sightings(t.obs, t.env));
            var swept := if t.down then Sweep(key, seen.state, t.env) else Outcome(seen.state, []);
            ExecTick(cfg, key, s, t)
            == Outcome(Prune(swept.state, t.env.runID), seen.sent + swept.sent)
  {
    var a := Sightings(t.obs, t.env);
    var b := if t.down then [SourceDown(t.env)] else [];
    var c := [RunEnd(t.env.runID)];
    ExecConcat(cfg, key, s, a + b, c);
    ExecConcat(cfg, key, s, a, b);
    var rb := Exec(cfg, key, Exec(cfg, key, s, a).state, b);
    assert c[..0] == [] && (t.down ==> b[..0] == []);
    assert Exec(cfg, key, rb.state, c) == Outcome(Prune(rb.state, t.env.runID), []);
  }

  lemma {:induction false} StepStampsRun(cfg: Config, s: Option<KeyRecord>, o: Observation, env: Env)
    ensures var t := Step(cfg, s, o, env).state; t.Some? ==> t.value.lastSeenRun == env.runID
  {
  }

  /** With at most one observation of the key, a run is just that observation's step;
      without one it is the sweep, if the source is down, and the prune. */
  lemma {:induction false} ExecTickUnfolds(cfg: Config, key: string, s: Option<KeyRecord>, t: Tick)
    requires |t.obs| <= 1
    ensures ExecTick(cfg, key, s, t) ==
            if t.obs != [] then Step(cfg, s, t.obs[0], t.env)
            else
              var swept := if t.down then Sweep(key, s, t.env) else Outcome(s, []);
              Outcome(Prune(swept.state, t.env.runID), swept.sent)
  {
    ExecTickParts(cfg, key, s, t);
    var a := Sightings(t.obs, t.env);
    if t.obs == [] {
      var swept := if t.down then Sweep(key, s, t.env) else Outcome(s, []);
      assert [] + swept.sent == swept.sent;
    } else {
      assert a == [Seen(t.obs[0], t.env)] && a[..0] == [];
      var r := Step(cfg, s, t.obs[0], t.env);
      assert [] + r.sent == r.sent && r.sent + [] == r.sent;
      assert Exec(cfg, key, s, a) == r;
      StepStampsRun(cfg, s, t.obs[0], t.env);
    }
  }
}

/** What a decision tells its reader and what a record remembers, field by field. */
module Records {
  import opened Types
  import opened KeyMachine
  import opened Cooldown

  lemma {:induction false} BreachIsAnnounced(cfg: Config, s: Option<KeyRecord>, o: Observation, env: Env, d: Decision)
    returns (kind: Kind)
    requires o.health == BAD && d in Step(cfg, s, o, env).sent
    ensures d.alert == BuildAlert(o, o.tier, kind, env) && kind != DEGRADED && kind != RESOLVED
  {
    kind := d.alert.kind;
  }

  lemma {:induction false} RestIsFollowedUp(cfg: Config, s: Option<KeyRecord>, o: Observation, env: Env, d: Decision)
    requires o.health != BAD && d in Step(cfg, s, o, env).sent
    ensures s.Some?
    ensures o.health == OK ==> d.alert == BuildAlert(o, s.value.tier, RESOLVED, env)
    ensures o.health == UNKNOWN ==>
              d.alert == BuildAlert(o, s.value.tier, DEGRADED, env).(measured := CANNOT_MEASURE)
  {
  }

  /** A notice says what was observed of the key: in the words of the observation, of this
      host and run; at the observed tier if it is about a breach, at the stored one if it is
      not. */
  lemma {:induction false} SaysWhatWasObserved(cfg: Config, s: Option<KeyRecord>, o: Observation, env: Env, d: Decision)
    requires d in Step(cfg, s, o, env).sent
    ensures var a := d.alert;
            && a.title == o.title && a.threshold == o.threshold && a.fix == o.fix
            && a.check == o.check && a.scope == o.scope && a.key == o.check + ":" + o.scope
            && a.host == env.host && a.ts == env.now && a.runID == env.runID
            && a.measured == (if a.kind == DEGRADED then "monitoring degraded — could not measure this run"
                              else o.measured)
            && (a.kind == DEGRADED <==> o.health == UNKNOWN) && (a.kind == RESOLVED <==> o.health == OK)
            && (o.health == BAD ==> a.tier == o.tier)
            && (o.health != BAD ==> s.Some? && a.tier == s.value.tier)
  {
    if o.health == BAD {
      var kind := BreachIsAnnounced(cfg, s, o, env, d);
    } else {
      RestIsFollowedUp(cfg, s, o, env, d);
    }
  }

  /** A sweep names the check and the scope of the key itself, and has no words of an
      observation to give. */
  lemma {:induction false} SweepSaysUnavailable(
      check: string, scope: string, s: Option<KeyRecord>, env: Env, d: Decision)
    requires ':' !in check && d in Sweep(check + ":" + scope, s, env).sent
    ensures var a := d.alert;
            && a.kind == DEGRADED && a.title == "Monitoring degraded"
            && a.measured == "monitoring degraded — source unavailable this run" && a.threshold == "" && a.fix == ""
            && a.check == check && a.scope == scope && a.key == check + ":" + scope
            && a.host == env.host && a.ts == env.now && a.runID == env.runID
            && s.Some? && a.tier == s.value.tier && d.targets == s.value.notifiedTargets
  {
    FirstColonEndsCheck(check, scope);
    var key := check + ":" + scope;
    assert key[..|check|] == check && key[|check| + 1..] == scope;
  }

  // ---- the record ----

  /** The most recent breach. */
  function LatestBreach(h: seq<Event>): Option<Observation> {
    if h == [] then None
    else
      var e := h[|h| - 1];
      if e.Seen? && e.o.health == BAD then Some(e.o) else LatestBreach(h[..|h| - 1])
  }

  predicate Quotes(s: Option<KeyRecord>, latest: Option<Observation>) {
    s.Some? ==> latest.Some? && s.value.lastMeasured == latest.value.measured
  }

  lemma {:induction false} QuoteStep(
      cfg: Config, key: string, s: Option<KeyRecord>, e: Event, latest: Option<Observation>)
    requires Quotes(s, latest)
    ensures Quotes(Apply(cfg, key, s, e).state, if e.Seen? && e.o.health == BAD then Some(e.o) else latest)
  {
  }

  /** The stored measurement is that of the latest breach. */
  lemma {:induction false} MeasuredIsLatest(cfg: Config, key: string, h: seq<Event>)
    ensures Quotes(StateAfter(cfg, key, h), LatestBreach(h))
  {
    if h != [] {
      var n := |h| - 1;
      MeasuredIsLatest(cfg, key, h[..n]);
      QuoteStep(cfg, key, StateAfter(cfg, key, h[..n]), h[n], LatestBreach(h[..n]));
    }
  }

  function ClockOf(e: Event): int {
    if e.RunEnd? then 0 else e.env.now
  }

  /** The clock reading at which the key last went from not firing to firing. */
  function FireInstant(cfg: Config, key: string, h: seq<Event>): Option<int> {
    if h == [] || !Firing(StateAfter(cfg, key, h)) then None
    else
      var n := |h| - 1;
      if Firing(StateAfter(cfg, key, h[..n])) then FireInstant(cfg, key, h[..n]) else Some(ClockOf(h[n]))
  }

  lemma {:induction false} FiredStep(cfg: Config, key: string, s: Option<KeyRecord>, e: Event)
    ensures var t := Apply(cfg, key, s, e).state;
            Firing(t) ==> t.value.firedAt == if Firing(s) then s.value.firedAt else ClockOf(e)
  {
  }

  /** The stored instant of firing is that one, whatever the clock did since. */
  lemma {:induction false} FiredAtIsFireInstant(cfg: Config, key: string, h: seq<Event>)
    ensures var s := StateAfter(cfg, key, h);
            Firing(s) ==> FireInstant(cfg, key, h) == Some(s.value.firedAt)
  {
    if h != [] {
      var n := |h| - 1;
      FiredAtIsFireInstant(cfg, key, h[..n]);
      FiredStep(cfg, key, StateAfter(cfg, key, h[..n]), h[n]);
    }
  }

  /** The clock readings of the measurements since the key was last untracked. */
  function TrackedReadings(cfg: Config, key: string, h: seq<Event>): seq<int> {
    if h == [] || StateAfter(cfg, key, h).None? then []
    else
      var n := |h| - 1;
      var before := TrackedReadings(cfg, key, h[..n]);
      if h[n].Measured() then before + [h[n].env.now] else before
  }

  ghost predicate DetectedIs(s: Option<KeyRecord>, r: seq<int>) {
    if s.None? then r == [] else r != [] && s.value.firstDetected == MinOf(r)
  }

  lemma {:induction false} DetectedStep(cfg: Config, key: string, s: Option<KeyRecord>, e: Event, r: seq<int>)
    requires DetectedIs(s, r)
    ensures var t := Apply(cfg, key, s, e).state;
            DetectedIs(t, if t.None? then [] else if e.Measured() then r + [e.env.now] else r)
  {
    if e.Measured() {
      MinOfSnoc(r, e.env.now);
    }
  }

  /** A record's first detection is the least clock reading of a measurement since it was
      made: a clock that steps back takes it along. */
  lemma {:induction false} FirstDetectedIsLeast(cfg: Config, key: string, h: seq<Event>)
    ensures DetectedIs(StateAfter(cfg, key, h), TrackedReadings(cfg, key, h))
  {
    if h != [] {
      var n := |h| - 1;
      FirstDetectedIsLeast(cfg, key, h[..n]);
      DetectedStep(cfg, key, StateAfter(cfg, key, h[..n]), h[n], TrackedReadings(cfg, key, h[..n]));
    }
  }

  /** The run of the latest observation of the key, or outage of its source while it fired. */
  function LatestRun(cfg: Config, key: string, h: seq<Event>): int {
    if h == [] then 0
    else
      var n := |h| - 1;
      if h[n].Seen? || (h[n].SourceDown? && Firing(StateAfter(cfg, key, h[..n]))) then h[n].env.runID
      else LatestRun(cfg, key, h[..n])
  }

  lemma {:induction false} RunStep(cfg: Config, key: string, s: Option<KeyRecord>, e: Event)
    ensures var t := Apply(cfg, key, s, e).state;
            t.Some? ==>
              if e.Seen? || (e.SourceDown? && Firing(s)) then t.value.lastSeenRun == e.env.runID
              else s.Some? && t.value.lastSeenRun == s.value.lastSeenRun
  {
  }

  /** The stored run is that one: it counts blind runs, and outages only while firing. */
  lemma {:induction false} LastSeenIsLatestRun(cfg: Config, key: string, h: seq<Event>)
    ensures var s := StateAfter(cfg, key, h);
            s.Some? ==> s.value.lastSeenRun == LatestRun(cfg, key, h)
  {
    if h != [] {
      var n := |h| - 1;
      LastSeenIsLatestRun(cfg, key, h[..n]);
      RunStep(cfg, key, StateAfter(cfg, key, h[..n]), h[n]);
    }
  }

  /** The breaches since the key was last good or untracked. */
  function BreachesInRow(cfg: Config, key: string, h: seq<Event>): nat {
    if h == [] || StateAfter(cfg, key, h).None? then 0
    else
      var n := |h| - 1;
      if !h[n].Measured() then BreachesInRow(cfg, key, h[..n])
      else if h[n].o.health == OK then 0
      else BreachesInRow(cfg, key, h[..n]) + 1
  }

  predicate CountIs(s: Option<KeyRecord>, n: nat) {
    if s.None? then n == 0 else s.value.consecutiveBad == n
  }

  lemma {:induction false} CountStep(cfg: Config, key: string, s: Option<KeyRecord>, e: Event, n: nat)
    requires CountIs(s, n)
    ensures var t := Apply(cfg, key, s, e).state;
            CountIs(t, if t.None? then 0 else if !e.Measured() then n else if e.o.health == OK then 0 else n + 1)
  {
  }

  /** The stored count of breaches is that one, firing or not. */
  lemma {:induction false} CountIsBreachesInRow(cfg: Config, key: string, h: seq<Event>)
    ensures CountIs(StateAfter(cfg, key, h), BreachesInRow(cfg, key, h))
  {
    if h != [] {
      var n := |h| - 1;
      CountIsBreachesInRow(cfg, key, h[..n]);
      CountStep(cfg, key, StateAfter(cfg, key, h[..n]), h[n], BreachesInRow(cfg, key, h[..n]));
    }
  }
}

/** Flap damping is exact, and the firing status of a key is a function of its
    observations alone, muted or not and however many a run brings. */
module Flapping {
  import opened Types
  import opened Route
  import opened KeyMachine
  import opened Histories
  import opened AllClear

  /** BADs since the last OK, or since the end of the last run that did not observe the
      key. UNKNOWN neither adds nor resets; a muted BAD does not begin a streak. */
  function Streak(h: seq<Event>): nat {
    if h == [] then 0
    else
      var p := h[..|h| - 1];
      match h[|h| - 1]
      case Seen(o, _) =>
        if o.health == BAD then (if o.suppressed && Streak(p) == 0 then 0 else Streak(p) + 1)
        else if o.health == OK then 0
        else Streak(p)
      case SourceDown(_) => Streak(p)
      case RunEnd(_) => if SeenInRun(p) then Streak(p) else 0
  }

  /** A key that is not firing is tracked exactly while it has a streak, and remembers it. */
  predicate Remembers(s: Option<KeyRecord>, streak: nat) {
    !Firing(s) ==> (s.Some? <==> streak > 0) && (s.Some? ==> s.value.consecutiveBad == streak)
  }

  /** A pending record is stamped with the current run exactly when the run observed it. */
  ghost predicate Timely(s: Option<KeyRecord>, h: seq<Event>) {
    s.Some? ==>
      && h != [] && s.value.lastSeenRun <= IdOf(h[|h| - 1])
      && (Pending(s) ==>
            if SeenInRun(h) then s.value.lastSeenRun == IdOf(h[|h| - 1])
            else h[|h| - 1].RunEnd? || s.value.lastSeenRun < IdOf(h[|h| - 1]))
  }

  lemma {:induction false} StampStep(cfg: Config, s: Option<KeyRecord>, o: Observation, env: Env)
    ensures var t := Step(cfg, s, o, env).state; t.Some? ==> t.value.lastSeenRun == env.runID
  {
  }

  lemma {:induction false} TimelyStep(cfg: Config, key: string, s: Option<KeyRecord>, h: seq<Event>, e: Event)
    requires Timely(s, h) && MayFollow(h, e)
    ensures Timely(Apply(cfg, key, s, e).state, h + [e])
  {
    SeenInRunSnoc(h, e);
    if e.Seen? {
      StampStep(cfg, s, e.o, e.env);
    } else {
      assert SeenInRun(h) ==> h != [] && !h[|h| - 1].RunEnd?;
    }
  }

  lemma {:induction false} StreakSnoc(h: seq<Event>, e: Event)
    ensures Streak(h + [e]) ==
            match e
            case Seen(o, _) =>
              if o.health == BAD then (if o.suppressed && Streak(h) == 0 then 0 else Streak(h) + 1)
              else if o.health == OK then 0
              else Streak(h)
            case SourceDown(_) => Streak(h)
            case RunEnd(_) => if SeenInRun(h) then Streak(h) else 0
  {
    assert (h + [e])[..|h|] == h;
  }

  /** The event is a BAD, and the streak it makes reaches the threshold of its own tier
      and check. */
  predicate Completes(cfg: Config, h: seq<Event>, e: Event) {
    e.Seen? && e.o.health == BAD && Streak(h + [e]) >= FlapSamplesFor(cfg, e.o.check, e.o.tier)
  }

  lemma {:induction false} ThresholdsPositive(cfg: Config, check: string, tier: Tier)
    requires cfg.Valid()
    ensures FlapSamplesFor(cfg, check, tier) >= 1
  {
  }

  /** What one observation does to a key that is not firing. */
  lemma {:induction false} QuietSighting(cfg: Config, s: Option<KeyRecord>, o: Observation, env: Env,
      streak: nat, next: nat)
    requires !Firing(s) && Remembers(s, streak) && FlapSamplesFor(cfg, o.check, o.tier) >= 1
    requires next == if o.health == BAD then (if o.suppressed && streak == 0 then 0 else streak + 1)
                     else if o.health == OK then 0 else streak
    ensures var r := Step(cfg, s, o, env);
            && Remembers(r.state, next)
            && (Firing(r.state) <==> o.health == BAD && next >= FlapSamplesFor(cfg, o.check, o.tier))
            && r.sent == (if Firing(r.state) && !o.suppressed
                          then Notify(BuildAlert(o, o.tier, FIRE, env), RouteTargets(cfg, o.tier)) else [])
  {
  }

  lemma {:induction false} QuietPrune(s: Option<KeyRecord>, h: seq<Event>, id: int)
    requires !Firing(s) && Remembers(s, Streak(h)) && Timely(s, h) && MayFollow(h, RunEnd(id))
    ensures !Firing(Prune(s, id)) && Remembers(Prune(s, id), if SeenInRun(h) then Streak(h) else 0)
  {
    assert SeenInRun(h) ==> h != [] && !h[|h| - 1].RunEnd?;
  }

  /** What one event does to a key that is not firing. */
  lemma {:induction false} QuietStep(cfg: Config, key: string, s: Option<KeyRecord>, h: seq<Event>, e: Event)
    requires cfg.Valid() && MayFollow(h, e) && Timely(s, h) && Remembers(s, Streak(h)) && !Firing(s)
    ensures var r := Apply(cfg, key, s, e);
            && Remembers(r.state, Streak(h + [e]))
            && (Firing(r.state) <==> Completes(cfg, h, e))
            && r.sent == (if Firing(r.state) && !e.o.suppressed
                          then Notify(BuildAlert(e.o, e.o.tier, FIRE, e.env), RouteTargets(cfg, e.o.tier)) else [])
  {
    StreakSnoc(h, e);
    match e {
      case Seen(o, env) =>
        ThresholdsPositive(cfg, o.check, o.tier);
        QuietSighting(cfg, s, o, env, Streak(h), Streak(h + [e]));
      case SourceDown(_) =>
      case RunEnd(id) => QuietPrune(s, h, id);
    }
  }

  /** A firing key that stops firing is forgotten, on an OK. */
  lemma {:induction false} LoudStep(cfg: Config, key: string, s: Option<KeyRecord>, h: seq<Event>, e: Event)
    requires Firing(s)
    ensures Remembers(Apply(cfg, key, s, e).state, Streak(h + [e]))
  {
    StreakSnoc(h, e);
  }

  lemma {:induction false} AfterSnoc(cfg: Config, key: string, h: seq<Event>, e: Event)
    ensures StateAfter(cfg, key, h + [e]) == Apply(cfg, key, StateAfter(cfg, key, h), e).state
  {
    ExecSnoc(cfg, key, None, h, e);
  }

  /** A key that is not firing remembers exactly its streak. */
  lemma {:induction false} PendingCountIsStreak(cfg: Config, key: string, h: seq<Event>)
    requires cfg.Valid() && InRuns(h)
    ensures Remembers(StateAfter(cfg, key, h), Streak(h)) && Timely(StateAfter(cfg, key, h), h)
  {
    if h != [] {
      var p, e := h[..|h| - 1], h[|h| - 1];
      PendingCountIsStreak(cfg, key, p);
      assert h == p + [e];
      AfterSnoc(cfg, key, p, e);
      var s := StateAfter(cfg, key, p);
      TimelyStep(cfg, key, s, p, e);
      if Firing(s) {
        LoudStep(cfg, key, s, p, e);
      } else {
        QuietStep(cfg, key, s, p, e);
      }
    }
  }

  /** A quiet key fires at an event if and only if the event is a BAD whose streak reaches
      the threshold of its tier and check; unless muted, it then announces itself to the
      channels of that tier. */
  lemma {:induction false} FiresExactlyAtThreshold(cfg: Config, key: string, h: seq<Event>, e: Event)
    requires cfg.Valid() && InRuns(h + [e]) && !Firing(StateAfter(cfg, key, h))
    ensures Firing(StateAfter(cfg, key, h + [e])) <==> Completes(cfg, h, e)
    ensures Apply(cfg, key, StateAfter(cfg, key, h), e).sent ==
            if Completes(cfg, h, e) && !e.o.suppressed
            then Notify(BuildAlert(e.o, e.o.tier, FIRE, e.env), RouteTargets(cfg, e.o.tier))
            else []
  {
    assert (h + [e])[..|h|] == h;
    InRunsPrefix(h + [e], |h|);
    PendingCountIsStreak(cfg, key, h);
    AfterSnoc(cfg, key, h, e);
    QuietStep(cfg, key, StateAfter(cfg, key, h), h, e);
  }

  /** The same in the configuration's own fields: the number asked for is that of the
      check's override block, if it is one of the eight that have one and gives a number,
      else that of the observation's tier. */
  lemma {:induction false} FiresAtConfiguredNumber(cfg: Config, key: string, h: seq<Event>, o: Observation, env: Env)
    requires cfg.Valid() && InRuns(h + [Seen(o, env)]) && !Firing(StateAfter(cfg, key, h))
    ensures Firing(StateAfter(cfg, key, h + [Seen(o, env)])) <==>
            && o.health == BAD
            && Streak(h + [Seen(o, env)]) >=
                 if o.check in {"mem_pressure", "committed_as", "declared_overcommit", "unbounded_mem",
                                "disk_fill", "disk_inodes", "swap_thrash", "crashloop"}
                    && o.check in cfg.overrides && cfg.overrides[o.check].flapSamples.Some?
                 then cfg.overrides[o.check].flapSamples.value
                 else match o.tier case 0 => cfg.flapWarn case 1 => cfg.flapAlert case 2 => cfg.flapPage
  {
    FiresExactlyAtThreshold(cfg, key, h, Seen(o, env));
  }

  /** As shipped, a page waits for no second breach: with one sample asked for and no
      override, the first unmuted PAGE breach of an untracked key fires at once. */
  lemma {:induction false} FirstPageFires(cfg: Config, s: Option<KeyRecord>, o: Observation, env: Env)
    requires cfg.flapPage == 1 && o.check !in cfg.overrides
    requires s.None? && o.health == BAD && o.tier == 2 && !o.suppressed
    ensures var r := Step(cfg, s, o, env);
            && Firing(r.state)
            && forall n :: n in RouteTargets(cfg, 2) ==>
                 exists d :: d in r.sent && d.alert.kind == FIRE && d.alert.tier == 2 && n in d.targets
  {
    var sent := Step(cfg, s, o, env).sent;
    if RouteTargets(cfg, 2) != [] {
      assert sent[0] in sent && sent[0].targets == RouteTargets(cfg, 2);
    }
  }

  /** Reference status, read off the observations without any stored counter: a key
      fires when a BAD streak reaches its threshold and stays firing until its
      measurements end with `resolveSamples` OKs. */
  predicate FiringByHistory(cfg: Config, h: seq<Event>) {
    h != [] &&
    var p, e := h[..|h| - 1], h[|h| - 1];
    if FiringByHistory(cfg, p) then !(e.Measured() && EndsWithOKs(Verdicts(h), cfg.resolveSamples))
    else Completes(cfg, p, e)
  }

  /** The machine's status is the reference status, after every history. */
  lemma {:induction false} StatusIsHistory(cfg: Config, key: string, h: seq<Event>)
    requires cfg.Valid() && InRuns(h)
    ensures Firing(StateAfter(cfg, key, h)) == FiringByHistory(cfg, h)
  {
    if h != [] {
      var p, e := h[..|h| - 1], h[|h| - 1];
      assert h == p + [e];
      StatusIsHistory(cfg, key, p);
      if Firing(StateAfter(cfg, key, p)) {
        NoFalseAllClear(cfg, key, p, e);
      } else {
        FiresExactlyAtThreshold(cfg, key, p, e);
      }
    }
  }
}

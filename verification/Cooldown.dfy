/** The cooldown law, under arbitrary clock steps: what a firing key's reminder clock
    measures, exactly when it reminds, and how far apart reminders must be. */
module Cooldown {
  import opened Types
  import opened Route
  import opened KeyMachine
  import opened Grammar

  function MinOf(r: seq<int>): int
    requires r != []
  {
    if |r| == 1 then r[0] else Min(r[|r| - 1], MinOf(r[..|r| - 1]))
  }

  lemma {:induction false} MinOfSnoc(r: seq<int>, x: int)
    ensures MinOf(r + [x]) == if r == [] then x else Min(x, MinOf(r))
  {
    assert (r + [x])[..|r|] == r;
  }

  lemma {:induction false} MinOfExact(r: seq<int>)
    requires r != []
    ensures MinOf(r) in r && forall x :: x in r ==> MinOf(r) <= x
  {
    if |r| > 1 {
      var p := r[..|r| - 1];
      MinOfExact(p);
      assert r == p + [r[|r| - 1]];
    }
  }

  predicate Due(cfg: Config, o: Observation, readings: seq<int>)
    requires readings != []
  {
    readings[|readings| - 1] - MinOf(readings) >= CooldownFor(cfg, o.check, o.tier)
  }

  /** The clock readings of the measured observations since the key last fired,
      changed tier or was due a reminder, that one included. Read off the history;
      the stored instant is never consulted. */
  function Readings(cfg: Config, key: string, h: seq<Event>): seq<int> {
    if h == [] then []
    else
      var n := |h| - 1;
      var e := h[n];
      var r := Readings(cfg, key, h[..n]);
      if !e.Measured() then r
      else if !Firing(StateAfter(cfg, key, h)) then []
      else if e.o.health == OK then r + [e.env.now]
      else if !Firing(StateAfter(cfg, key, h[..n])) || LatestBadTier(h[..n]) != Some(e.o.tier) then [e.env.now]
      else if Due(cfg, e.o, r + [e.env.now]) then [e.env.now]
      else r + [e.env.now]
  }

  ghost predicate ClockIs(s: Option<KeyRecord>, r: seq<int>) {
    Firing(s) ==> r != [] && s.value.lastNotified == MinOf(r)
  }

  /** How one measured observation of an already firing key moves the clock. */
  lemma {:induction false} ClockStep(cfg: Config, s: Option<KeyRecord>, o: Observation, env: Env, r: seq<int>)
    requires Firing(s) && ClockIs(s, r) && o.Measured()
    ensures var t := Step(cfg, s, o, env).state;
            Firing(t) ==>
              ClockIs(t, if o.health == BAD && (o.tier != s.value.tier || Due(cfg, o, r + [env.now]))
                         then [env.now] else r + [env.now])
  {
    MinOfSnoc(r, env.now);
  }

  /** A firing key's `lastNotified` is the least clock reading since its last reset. */
  lemma {:induction false} ClockIsLeastReading(cfg: Config, key: string, h: seq<Event>)
    ensures ClockIs(StateAfter(cfg, key, h), Readings(cfg, key, h))
  {
    if h != [] {
      var n := |h| - 1;
      var before, e := h[..n], h[n];
      ClockIsLeastReading(cfg, key, before);
      StoredTierIsLatest(cfg, key, before);
      var s, r := StateAfter(cfg, key, before), Readings(cfg, key, before);
      assert StateAfter(cfg, key, h) == Apply(cfg, key, s, e).state;
      if e.Measured() && Firing(s) {
        ClockStep(cfg, s, e.o, e.env, r);
      }
    }
  }

  /** An unmuted BAD at the current tier reminds if and only if the clock has moved a
      full cooldown beyond the least reading since the last reset, this reading
      included, and someone is routed; otherwise it is silent. */
  lemma {:induction false} RemindsExactlyWhenDue(cfg: Config, key: string, h: seq<Event>, e: Event)
    requires Firing(StateAfter(cfg, key, h))
    requires e.Seen? && e.o.health == BAD && !e.o.suppressed && LatestBadTier(h) == Some(e.o.tier)
    ensures Apply(cfg, key, StateAfter(cfg, key, h), e).sent ==
            if Due(cfg, e.o, Readings(cfg, key, h) + [e.env.now])
            then Notify(BuildAlert(e.o, e.o.tier, REMINDER, e.env), RouteTargets(cfg, e.o.tier))
            else []
  {
    ClockIsLeastReading(cfg, key, h);
    StoredTierIsLatest(cfg, key, h);
    MinOfSnoc(Readings(cfg, key, h), e.env.now);
  }

  /** The same in the configuration's own fields: how long to wait is what the check's
      override block says, if it is one of the eight that have one and says it, else what
      is configured for the tier. */
  lemma {:induction false} RemindsAtConfiguredCooldown(
      cfg: Config, key: string, h: seq<Event>, o: Observation, env: Env)
    requires Firing(StateAfter(cfg, key, h))
    requires o.health == BAD && !o.suppressed && LatestBadTier(h) == Some(o.tier)
    ensures Apply(cfg, key, StateAfter(cfg, key, h), Seen(o, env)).sent ==
            if env.now - MinOf(Readings(cfg, key, h) + [env.now]) >=
                 if o.check in {"mem_pressure", "committed_as", "declared_overcommit", "unbounded_mem",
                                "disk_fill", "disk_inodes", "swap_thrash", "crashloop"}
                    && o.check in cfg.overrides && cfg.overrides[o.check].cooldown.Some?
                 then cfg.overrides[o.check].cooldown.value
                 else match o.tier case 0 => cfg.cooldownWarn case 1 => cfg.cooldownAlert case 2 => cfg.cooldownPage
            then Notify(BuildAlert(o, o.tier, REMINDER, env), RouteTargets(cfg, o.tier))
            else []
  {
    RemindsExactlyWhenDue(cfg, key, h, Seen(o, env));
  }

  // ---- spacing under a clock that does not go back ----

  function Reminders(sent: seq<Decision>): nat {
    if sent == [] then 0
    else Reminders(sent[..|sent| - 1]) + if sent[|sent| - 1].alert.kind == REMINDER then 1 else 0
  }

  lemma {:induction false} RemindersConcat(a: seq<Decision>, b: seq<Decision>)
    ensures Reminders(a + b) == Reminders(a) + Reminders(b)
  {
    if b == [] {
      assert a + b == a;
    } else {
      RemindersConcat(a, b[..|b| - 1]);
      assert (a + b)[..|a + b| - 1] == a + b[..|b| - 1];
    }
  }

  /** Events of one check that keep the key firing at one tier, read by a clock that
      stays within [start, end] and does not go back. */
  ghost predicate Steady(cfg: Config, key: string, k: KeyRecord, tail: seq<Event>, check: string, start: int,
      end: int) {
    && (forall i :: 0 <= i <= |tail| ==> Firing(Exec(cfg, key, Some(k), tail[..i]).state))
    && (forall i :: 0 <= i < |tail| && tail[i].Measured() ==>
          && tail[i].o.check == check
          && (tail[i].o.health == BAD ==> tail[i].o.tier == k.tier)
          && start <= tail[i].env.now <= end)
    && (forall i, j :: 0 <= i < j < |tail| && tail[i].Measured() && tail[j].Measured() ==>
          tail[i].env.now <= tail[j].env.now)
  }

  /** One event: a reminder moves the clock on by at least the cooldown. */
  lemma {:induction false} ReminderStep(cfg: Config, key: string, s: Option<KeyRecord>, e: Event)
    requires Firing(s) && Firing(Apply(cfg, key, s, e).state)
    requires e.Measured() ==> s.value.lastNotified <= e.env.now
    requires e.Measured() && e.o.health == BAD ==> e.o.tier == s.value.tier
    ensures var r := Apply(cfg, key, s, e);
            && r.state.value.tier == s.value.tier
            && (r.state.value.lastNotified == s.value.lastNotified
                || (e.Measured() && r.state.value.lastNotified == e.env.now))
            && Reminders(r.sent) <= 1
            && (Reminders(r.sent) == 1 ==>
                  && e.Measured() && r.state.value.lastNotified == e.env.now
                  && e.env.now - s.value.lastNotified >= CooldownFor(cfg, e.o.check, s.value.tier))
  {
    var sent := Apply(cfg, key, s, e).sent;
    assert |sent| <= 1;
    if sent != [] {
      assert sent[..0] == [];
    }
  }

  lemma {:induction false} SteadyPrefix(cfg: Config, key: string, k: KeyRecord, tail: seq<Event>,
      check: string, start: int, end: int)
    requires tail != [] && Steady(cfg, key, k, tail, check, start, end)
    ensures var e := tail[|tail| - 1];
            Steady(cfg, key, k, tail[..|tail| - 1], check, start, if e.Measured() then e.env.now else end)
    ensures Firing(Exec(cfg, key, Some(k), tail[..|tail| - 1]).state) && Firing(Exec(cfg, key, Some(k), tail).state)
  {
    var before := tail[..|tail| - 1];
    forall i | 0 <= i <= |before|
      ensures before[..i] == tail[..i]
    {
    }
    assert tail[..|tail|] == tail;
  }

  lemma {:induction false} OneMore(m: nat, r: nat, c: int, elapsed: int, more: int)
    requires m * c <= elapsed && r <= 1 && more >= if r == 1 then c else 0
    ensures (m + r) * c <= elapsed + more
  {
    assert (m + r) * c == m * c + r * c;
  }

  /** The elapsed time on the reminder clock covers every reminder sent. */
  ghost predicate Covers(r: Outcome, k: KeyRecord, c: int, end: int) {
    && r.state.Some? && r.state.value.tier == k.tier
    && k.lastNotified <= r.state.value.lastNotified <= end
    && Reminders(r.sent) * c <= r.state.value.lastNotified - k.lastNotified
  }

  lemma {:induction false} CoversStep(cfg: Config, key: string, k: KeyRecord, r: Outcome, e: Event, c: int,
      bound: int, end: int)
    requires Firing(r.state) && Firing(Apply(cfg, key, r.state, e).state)
    requires Covers(r, k, c, bound) && bound <= end && (e.Measured() ==> bound == e.env.now)
    requires e.Measured() && e.o.health == BAD ==> e.o.tier == k.tier
    requires e.Measured() ==> c == CooldownFor(cfg, e.o.check, k.tier)
    ensures var next := Apply(cfg, key, r.state, e);
            Covers(Outcome(next.state, r.sent + next.sent), k, c, end)
  {
    ReminderStep(cfg, key, r.state, e);
    var next := Apply(cfg, key, r.state, e);
    RemindersConcat(r.sent, next.sent);
    OneMore(Reminders(r.sent), Reminders(next.sent), c, r.state.value.lastNotified - k.lastNotified,
            next.state.value.lastNotified - r.state.value.lastNotified);
  }

  /** m reminders at one tier need at least m cooldowns of elapsed time. */
  lemma {:induction false} RemindersAreSpaced(
      cfg: Config, key: string, k: KeyRecord, tail: seq<Event>, check: string, end: int)
    requires k.status == FIRING && k.lastNotified <= end
    requires Steady(cfg, key, k, tail, check, k.lastNotified, end)
    ensures Covers(Exec(cfg, key, Some(k), tail), k, CooldownFor(cfg, check, k.tier), end)
    ensures Reminders(Exec(cfg, key, Some(k), tail).sent) * CooldownFor(cfg, check, k.tier) <= end - k.lastNotified
  {
    if tail != [] {
      var before, e := tail[..|tail| - 1], tail[|tail| - 1];
      var bound := if e.Measured() then e.env.now else end;
      SteadyPrefix(cfg, key, k, tail, check, k.lastNotified, end);
      RemindersAreSpaced(cfg, key, k, before, check, bound);
      CoversStep(cfg, key, k, Exec(cfg, key, Some(k), before), e, CooldownFor(cfg, check, k.tier), bound, end);
    }
  }
}

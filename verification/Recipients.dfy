/** Who hears what: the channels of a RESOLVED are exactly those the episode reached,
    and no episode-opening or repeating notice goes below a channel's floor. */
module Recipients {
  import opened Types
  import opened Route
  import opened KeyMachine
  import opened Grammar

  function TargetsOf(sent: seq<Decision>): seq<string> {
    if sent == [] then []
    else
      var d := sent[|sent| - 1];
      TargetsOf(sent[..|sent| - 1]) + if d.alert.kind == DEGRADED then [] else d.targets
  }

  /** The channels, in order of sending and with repetitions, that the FIRE, ESCALATE
      and REMINDER decisions of the current episode went to. */
  function EpisodeTargets(cfg: Config, key: string, h: seq<Event>): seq<string> {
    if h == [] || !Firing(StateAfter(cfg, key, h)) then []
    else
      var n := |h| - 1;
      EpisodeTargets(cfg, key, h[..n]) + TargetsOf(Apply(cfg, key, StateAfter(cfg, key, h[..n]), h[n]).sent)
  }

  predicate Unannounced(s: Option<KeyRecord>) {
    Pending(s) ==> s.value.notifiedTargets == []
  }

  /** How an outcome changed the remembered channels. */
  predicate Grows(cfg: Config, s: Option<KeyRecord>, e: Event, r: Outcome) {
    Firing(r.state) ==>
      var known := if Firing(s) then s.value.notifiedTargets else [];
      || r.state.value.notifiedTargets == Union(known, TargetsOf(r.sent))
      || (&& e.Seen? && e.o.suppressed && r.sent == []
          && r.state.value.notifiedTargets == Union(known, RouteTargets(cfg, e.o.tier)))
  }

  lemma {:induction false} TargetsOfOne(sent: seq<Decision>)
    requires |sent| <= 1
    ensures TargetsOf(sent) ==
            if sent == [] || sent[0].alert.kind == DEGRADED then [] else sent[0].targets
  {
    if sent != [] {
      assert sent[..0] == [];
    }
  }

  lemma {:induction false} RecipientOfBad(cfg: Config, s: Option<KeyRecord>, o: Observation, env: Env)
    requires Unannounced(s)
    ensures var r := StepBad(cfg, s, o, env);
            && Unannounced(r.state) && |r.sent| <= 1
            && (Firing(r.state) ==>
                  var known := if Firing(s) then s.value.notifiedTargets else [];
                  var routed := r.state.value.notifiedTargets == Union(known, RouteTargets(cfg, o.tier));
                  && (r.state.value.notifiedTargets == Union(known, TargetsOf(r.sent)))
                  && (routed || r.state.value.notifiedTargets == Union(known, [])))
  {
    TargetsOfOne(StepBad(cfg, s, o, env).sent);
  }

  lemma {:induction false} QuietRecipients(cfg: Config, key: string, s: Option<KeyRecord>, e: Event)
    requires Unannounced(s) && !(e.Seen? && e.o.health == BAD)
    ensures var r := Apply(cfg, key, s, e);
            Unannounced(r.state) && |r.sent| <= 1 && Grows(cfg, s, e, r)
  {
    TargetsOfOne(Apply(cfg, key, s, e).sent);
  }

  /** One event grows the remembered channels by exactly the sent ones, unless it was
      muted; then it may remember more than it sent. */
  lemma {:induction false} RecipientStep(cfg: Config, key: string, s: Option<KeyRecord>, e: Event)
    requires Unannounced(s)
    ensures var r := Apply(cfg, key, s, e);
            Unannounced(r.state) && |r.sent| <= 1 && Grows(cfg, s, e, r)
  {
    if e.Seen? && e.o.health == BAD {
      RecipientOfBad(cfg, s, e.o, e.env);
    } else {
      QuietRecipients(cfg, key, s, e);
    }
  }

  lemma {:induction false} PendingHasNotified(cfg: Config, key: string, h: seq<Event>)
    ensures var s := StateAfter(cfg, key, h); Pending(s) ==> s.value.notifiedTargets == []
  {
    if h != [] {
      var n := |h| - 1;
      PendingHasNotified(cfg, key, h[..n]);
      RecipientStep(cfg, key, StateAfter(cfg, key, h[..n]), h[n]);
    }
  }

  lemma {:induction false} UnionKeeps(e: seq<string>, a: seq<string>)
    ensures forall x :: x in Union(e, a) <==> x in e || x in a
    ensures NoDuplicates(e) ==> NoDuplicates(Union(e, a))
  {
    if a != [] {
      UnionKeeps(e, a[..|a| - 1]);
      assert a == a[..|a| - 1] + [a[|a| - 1]];
    }
  }

  /** Over unmuted histories the remembered channels are the distinct channels of the
      episode's sends, in first-routed order. */
  lemma {:induction false} NotifiedExactly(cfg: Config, key: string, h: seq<Event>)
    requires Unmuted(h)
    ensures var s := StateAfter(cfg, key, h);
            Firing(s) ==> s.value.notifiedTargets == Distinct(EpisodeTargets(cfg, key, h))
  {
    if h != [] {
      var n := |h| - 1;
      NotifiedExactly(cfg, key, h[..n]);
      PendingHasNotified(cfg, key, h[..n]);
      var s := StateAfter(cfg, key, h[..n]);
      RecipientStep(cfg, key, s, h[n]);
      var sent := TargetsOf(Apply(cfg, key, s, h[n]).sent);
      UnionConcat([], EpisodeTargets(cfg, key, h[..n]), sent);
    }
  }

  /** Muted or not, every channel an episode reached is remembered, once. */
  lemma {:induction false} NotifiedCovers(cfg: Config, key: string, h: seq<Event>)
    ensures var s := StateAfter(cfg, key, h);
            Firing(s) ==>
              && NoDuplicates(s.value.notifiedTargets)
              && forall x :: x in EpisodeTargets(cfg, key, h) ==> x in s.value.notifiedTargets
  {
    if h != [] {
      var n := |h| - 1;
      NotifiedCovers(cfg, key, h[..n]);
      PendingHasNotified(cfg, key, h[..n]);
      var s := StateAfter(cfg, key, h[..n]);
      RecipientStep(cfg, key, s, h[n]);
      var known := if Firing(s) then s.value.notifiedTargets else [];
      UnionKeeps(known, TargetsOf(Apply(cfg, key, s, h[n]).sent));
      if h[n].Seen? {
        UnionKeeps(known, RouteTargets(cfg, h[n].o.tier));
      }
    }
  }

  /** The notices that follow an episode rather than a tier. */
  predicate FollowsEpisode(kind: Kind) { kind == RESOLVED || kind == DEGRADED }

  lemma {:induction false} FollowUpGoesToNotified(
      cfg: Config, key: string, s: Option<KeyRecord>, e: Event, d: Decision)
    requires d in Apply(cfg, key, s, e).sent && FollowsEpisode(d.alert.kind)
    ensures Firing(s) && d.targets == s.value.notifiedTargets && d.alert.tier == s.value.tier
  {
  }

  /** An unmuted RESOLVED or DEGRADED goes to exactly the channels its episode reached:
      each once, none missing, none extra, in the order they were first reached; and it
      carries the tier of the latest BAD. */
  lemma {:induction false} FollowUpReachesEpisode(cfg: Config, key: string, h: seq<Event>, e: Event, d: Decision)
    requires Unmuted(h)
    requires d in Apply(cfg, key, StateAfter(cfg, key, h), e).sent && FollowsEpisode(d.alert.kind)
    ensures d.targets == Distinct(EpisodeTargets(cfg, key, h))
    ensures NoDuplicates(d.targets)
    ensures forall x :: x in d.targets <==> x in EpisodeTargets(cfg, key, h)
    ensures LatestBadTier(h) == Some(d.alert.tier)
  {
    NotifiedExactly(cfg, key, h);
    StoredTierIsLatest(cfg, key, h);
    FollowUpGoesToNotified(cfg, key, StateAfter(cfg, key, h), e, d);
    DistinctExact(EpisodeTargets(cfg, key, h));
  }

  /** FIRE, ESCALATE and REMINDER go exactly to the channels routed for their own
      tier, each at or above its floor. */
  lemma {:induction false} FloorsRespected(cfg: Config, key: string, s: Option<KeyRecord>, e: Event, d: Decision)
    requires d in Apply(cfg, key, s, e).sent && d.alert.kind in {FIRE, ESCALATE, REMINDER}
    ensures forall x :: x in d.targets <==> x in cfg.TargetsFor(d.alert.tier) && Admits(cfg, x, d.alert.tier)
  {
    AdmittedExact(cfg, cfg.TargetsFor(d.alert.tier), d.alert.tier);
  }
}

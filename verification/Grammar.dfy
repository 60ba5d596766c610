/** The decisions of a key read as a sentence of
      (FIRE (ESCALATE | REMINDER | DEGRADED)* RESOLVED)*
    possibly cut short, and when a tier change speaks. */
module Grammar {
  import opened Types
  import opened Route
  import opened KeyMachine

  datatype Episode = CLOSED | OPEN | BROKEN

  function Read(p: Episode, kind: Kind): Episode {
    match (p, kind)
    case (CLOSED, FIRE) => OPEN
    case (OPEN, ESCALATE) => OPEN
    case (OPEN, REMINDER) => OPEN
    case (OPEN, DEGRADED) => OPEN
    case (OPEN, RESOLVED) => CLOSED
    case _ => BROKEN
  }

  function Parse(sent: seq<Decision>): Episode {
    if sent == [] then CLOSED
    else Read(Parse(sent[..|sent| - 1]), sent[|sent| - 1].alert.kind)
  }

  ghost predicate Unmuted(h: seq<Event>) {
    forall i :: 0 <= i < |h| && h[i].Seen? ==> !h[i].o.suppressed
  }

  /** Every tier reaches at least one channel. */
  ghost predicate AllTiersRouted(cfg: Config) {
    forall t: Tier :: RouteTargets(cfg, t) != []
  }

  lemma {:induction false} UnionGrows(e: seq<string>, a: seq<string>)
    ensures |Union(e, a)| >= |e|
    ensures a != [] ==> |Union(e, a)| > 0
  {
    if a != [] {
      UnionGrows(e, a[..|a| - 1]);
    }
  }

  ghost predicate Addressed(s: Option<KeyRecord>) {
    Firing(s) ==> s.value.notifiedTargets != []
  }

  /** One unmuted event says at most one word, the one the grammar allows next. */
  lemma {:induction false} WordFits(cfg: Config, key: string, s: Option<KeyRecord>, e: Event)
    requires AllTiersRouted(cfg) && Addressed(s) && (e.Seen? ==> !e.o.suppressed)
    ensures var r := Apply(cfg, key, s, e);
            && Addressed(r.state)
            && |r.sent| <= 1
            && var p := if Firing(s) then OPEN else CLOSED;
            && (if r.sent == [] then p else Read(p, r.sent[0].alert.kind))
               == (if Firing(r.state) then OPEN else CLOSED)
  {
    if e.Seen? && e.o.health == BAD {
      var k := CountBad(s, e.o, e.env);
      assert RouteTargets(cfg, e.o.tier) != [];
      UnionGrows(k.notifiedTargets, RouteTargets(cfg, e.o.tier));
    }
  }

  /** The decisions never leave the grammar, and an episode is open in them exactly
      while the key is firing. */
  lemma {:induction false} DecisionsFollowGrammar(cfg: Config, key: string, h: seq<Event>)
    requires AllTiersRouted(cfg) && Unmuted(h)
    ensures var r := Exec(cfg, key, None, h);
            && Parse(r.sent) == (if Firing(r.state) then OPEN else CLOSED)
            && Addressed(r.state)
  {
    if h != [] {
      var n := |h| - 1;
      DecisionsFollowGrammar(cfg, key, h[..n]);
      var before := Exec(cfg, key, None, h[..n]);
      WordFits(cfg, key, before.state, h[n]);
      var said := Apply(cfg, key, before.state, h[n]).sent;
      var sent := before.sent + said;
      if said == [] {
        assert sent == before.sent;
      } else {
        assert sent[..|sent| - 1] == before.sent;
      }
    }
  }

  /** The tier of the most recent bad measurement. */
  function LatestBadTier(h: seq<Event>): Option<Tier> {
    if h == [] then None
    else
      var e := h[|h| - 1];
      if e.Seen? && e.o.health == BAD then Some(e.o.tier) else LatestBadTier(h[..|h| - 1])
  }

  ghost predicate TierAgrees(s: Option<KeyRecord>, latest: Option<Tier>) {
    Firing(s) ==> latest == Some(s.value.tier) && s.value.lastTierNotified == s.value.tier
  }

  lemma {:induction false} TierStep(cfg: Config, key: string, s: Option<KeyRecord>, e: Event, latest: Option<Tier>)
    requires TierAgrees(s, latest)
    ensures TierAgrees(Apply(cfg, key, s, e).state, if e.Seen? && e.o.health == BAD then Some(e.o.tier) else latest)
  {
  }

  /** The stored tier of a firing key, and the tier it last announced or recorded, is the
      tier of its most recent bad measurement. */
  lemma {:induction false} StoredTierIsLatest(cfg: Config, key: string, h: seq<Event>)
    ensures TierAgrees(StateAfter(cfg, key, h), LatestBadTier(h))
  {
    if h != [] {
      var n := |h| - 1;
      StoredTierIsLatest(cfg, key, h[..n]);
      TierStep(cfg, key, StateAfter(cfg, key, h[..n]), h[n], LatestBadTier(h[..n]));
    }
  }

  /** While firing, an unmuted event escalates exactly when it is a BAD whose tier
      exceeds that of the previous BAD (and someone is routed); a lower tier is
      recorded in silence and never resolves. */
  lemma {:induction false} EscalatesExactlyOnWorseTier(cfg: Config, key: string, h: seq<Event>, e: Event)
    requires Firing(StateAfter(cfg, key, h)) && LatestBadTier(h).Some?
    requires e.Seen? ==> !e.o.suppressed
    ensures var sent := Apply(cfg, key, StateAfter(cfg, key, h), e).sent;
            (exists d :: d in sent && d.alert.kind == ESCALATE) <==>
              && e.Seen? && e.o.health == BAD
              && e.o.tier > LatestBadTier(h).value
              && RouteTargets(cfg, e.o.tier) != []
    ensures e.Seen? && e.o.health == BAD && e.o.tier < LatestBadTier(h).value ==>
              && Apply(cfg, key, StateAfter(cfg, key, h), e).sent == []
              && Firing(StateAfter(cfg, key, h + [e]))
  {
    StoredTierIsLatest(cfg, key, h);
    ExecSnoc(cfg, key, None, h, e);
    var s := StateAfter(cfg, key, h);
    var sent := Apply(cfg, key, s, e).sent;
    if e.Seen? && e.o.health == BAD && e.o.tier > s.value.tier && RouteTargets(cfg, e.o.tier) != [] {
      assert sent == [Decision(BuildAlert(e.o, e.o.tier, ESCALATE, e.env), RouteTargets(cfg, e.o.tier))];
      assert sent[0] in sent;
    }
  }
}

/** "Monitoring degraded" is said at most once per blind spell, whichever of the two
    emitters says it, and a key says at most one thing per run. */
module Degraded {
  import opened Types
  import opened KeyMachine
  import opened Stutter

  function SentAt(cfg: Config, key: string, h: seq<Event>, i: nat): seq<Decision>
    requires i < |h|
  {
    Apply(cfg, key, StateAfter(cfg, key, h[..i]), h[i]).sent
  }

  ghost predicate SaysDegraded(sent: seq<Decision>) {
    exists d :: d in sent && d.alert.kind == DEGRADED
  }

  predicate Told(s: Option<KeyRecord>) { Firing(s) && s.value.degradedNotified }

  lemma {:induction false} ToldStep(cfg: Config, key: string, s: Option<KeyRecord>, e: Event)
    ensures SaysDegraded(Apply(cfg, key, s, e).sent) ==> !e.Measured() && !Told(s)
    ensures SaysDegraded(Apply(cfg, key, s, e).sent) || (Told(s) && !e.Measured()) ==>
              Told(Apply(cfg, key, s, e).state)
  {
  }

  /** From the notice on, the key stays told until it is measured again. */
  lemma {:induction false} StaysTold(cfg: Config, key: string, h: seq<Event>, i: nat, j: nat)
    requires i < j <= |h| && SaysDegraded(SentAt(cfg, key, h, i))
    requires forall m :: i < m < j ==> !h[m].Measured()
    ensures Told(StateAfter(cfg, key, h[..j]))
  {
    if j > i + 1 {
      StaysTold(cfg, key, h, i, j - 1);
    }
    assert h[..j] == h[..j - 1] + [h[j - 1]];
    var s := StateAfter(cfg, key, h[..j - 1]);
    ToldStep(cfg, key, s, h[j - 1]);
    assert StateAfter(cfg, key, h[..j]) == Apply(cfg, key, s, h[j - 1]).state by {
      ExecSnoc(cfg, key, None, h[..j - 1], h[j - 1]);
    }
  }

  /** Between two degraded notices on one key lies a measurement of it. */
  lemma {:induction false} OncePerBlindSpell(cfg: Config, key: string, h: seq<Event>, i: nat, j: nat)
    requires i < j < |h|
    requires SaysDegraded(SentAt(cfg, key, h, i)) && SaysDegraded(SentAt(cfg, key, h, j))
    ensures exists m :: i < m < j && h[m].Measured()
  {
    if forall m :: i < m < j ==> !h[m].Measured() {
      StaysTold(cfg, key, h, i, j);
      ToldStep(cfg, key, StateAfter(cfg, key, h[..j]), h[j]);
      assert false;
    }
  }

  /** A coarse outage tells every firing key of the check that was not told yet,
      exactly once, and keeps every counter. */
  lemma {:induction false} OutageTellsOnce(cfg: Config, key: string, s: Option<KeyRecord>, t: Tick)
    requires t.obs == [] && t.down && Firing(s) && SeenBefore(s, t.env.runID)
    ensures var r := ExecTick(cfg, key, s, t);
            && SameButBlind(r.state, s) && Told(r.state)
            && r.sent == (if Told(s) then [] else [SweepDecision(key, s.value, t.env)])
  {
    ExecTickUnfolds(cfg, key, s, t);
  }

  /** With distinct keys in the run, a key decides at most one thing, about itself and
      stamped with the run's id. */
  lemma {:induction false} OneDecisionPerRun(cfg: Config, key: string, s: Option<KeyRecord>, t: Tick)
    requires |t.obs| <= 1 && (t.obs != [] ==> t.obs[0].Key() == key)
    ensures var sent := ExecTick(cfg, key, s, t).sent;
            && |sent| <= 1
            && forall d :: d in sent ==> d.alert.key == key && d.alert.runID == t.env.runID
  {
    ExecTickUnfolds(cfg, key, s, t);
    if t.obs != [] {
      var r := Step(cfg, s, t.obs[0], t.env);
      assert r.state.Some? ==> r.state.value.lastSeenRun == t.env.runID;
    }
  }
}

/** No false all-clear: over every history, a firing key is cleared exactly by
    enough consecutive good measurements and by nothing else. */
module AllClear {
  import opened Types
  import opened KeyMachine

  /** The measured verdicts of a history, in order; UNKNOWN, sweeps, absence and
      pruning leave no entry. */
  function Verdicts(h: seq<Event>): seq<Health> {
    if h == [] then []
    else
      var n := |h| - 1;
      Verdicts(h[..n]) + if h[n].Measured() then [h[n].o.health] else []
  }

  predicate EndsWithOKs(v: seq<Health>, count: int) {
    count <= |v| && forall i :: 0 <= i < |v| && |v| - count <= i ==> v[i] == OK
  }

  /** Good measurements since the last bad one. */
  function TrailingOKs(v: seq<Health>): nat {
    if v == [] || v[|v| - 1] != OK then 0 else 1 + TrailingOKs(v[..|v| - 1])
  }

  lemma {:induction false} TrailingOKsExact(v: seq<Health>, count: nat)
    ensures TrailingOKs(v) >= count <==> EndsWithOKs(v, count)
  {
    if v != [] && count > 0 {
      TrailingOKsExact(v[..|v| - 1], count - 1);
    }
  }

  lemma {:induction false} VerdictsSnoc(h: seq<Event>, e: Event)
    ensures Verdicts(h + [e]) == Verdicts(h) + if e.Measured() then [e.o.health] else []
  {
    assert (h + [e])[..|h|] == h;
  }

  /** One event moves the counter of a firing key exactly as it moves the count. */
  lemma {:induction false} CounterStep(cfg: Config, key: string, s: Option<KeyRecord>, e: Event)
    requires cfg.Valid()
    ensures var t := Apply(cfg, key, s, e).state;
            Firing(t) ==>
              t.value.consecutiveOK ==
                if !e.Measured() then (if Firing(s) then s.value.consecutiveOK else 0)
                else if e.o.health == BAD then 0
                else s.value.consecutiveOK + 1
    ensures var t := Apply(cfg, key, s, e).state;
            Firing(t) ==>
              || (e.Measured() && e.o.health == BAD)
              || (Firing(s) && (e.Measured() ==> s.value.consecutiveOK + 1 < cfg.resolveSamples))
  {
  }

  /** The stored counter of a firing key is the number of good measurements since
      the last bad one, and is always short of the confirmation threshold. */
  lemma {:induction false} CounterIsTrailingOKs(cfg: Config, key: string, h: seq<Event>)
    requires cfg.Valid()
    ensures var s := StateAfter(cfg, key, h);
            Firing(s) ==>
              s.value.consecutiveOK == TrailingOKs(Verdicts(h)) < cfg.resolveSamples
  {
    if h != [] {
      var n := |h| - 1;
      CounterIsTrailingOKs(cfg, key, h[..n]);
      assert h == h[..n] + [h[n]];
      CounterStep(cfg, key, StateAfter(cfg, key, h[..n]), h[n]);
      assert StateAfter(cfg, key, h) == Apply(cfg, key, StateAfter(cfg, key, h[..n]), h[n]).state;
      var v := Verdicts(h);
      if h[n].Measured() {
        assert v[..|v| - 1] == Verdicts(h[..n]);
        assert v[|v| - 1] == h[n].o.health;
      } else {
        assert v == Verdicts(h[..n]);
      }
    }
  }

  /** One event ends an episode only by completing the count. */
  lemma {:induction false} ClearStep(cfg: Config, key: string, s: Option<KeyRecord>, e: Event)
    requires Firing(s)
    ensures var t := Apply(cfg, key, s, e).state;
            && (!Firing(t) <==>
                  e.Measured() && e.o.health == OK && s.value.consecutiveOK + 1 >= cfg.resolveSamples)
            && (!Firing(t) ==> t.None?)
  {
  }

  /** A firing key stops firing at an event if and only if that event is a good
      measurement completing `resolveSamples` good ones in a row; it is then deleted
      outright. Absence, UNKNOWN, an outage sweep or pruning never clears it. */
  lemma {:induction false} NoFalseAllClear(cfg: Config, key: string, h: seq<Event>, e: Event)
    requires cfg.Valid()
    requires Firing(StateAfter(cfg, key, h))
    ensures !Firing(StateAfter(cfg, key, h + [e])) <==>
            e.Measured() && EndsWithOKs(Verdicts(h + [e]), cfg.resolveSamples)
    ensures !Firing(StateAfter(cfg, key, h + [e])) ==> StateAfter(cfg, key, h + [e]).None?
  {
    var s := StateAfter(cfg, key, h);
    assert StateAfter(cfg, key, h + [e]) == Apply(cfg, key, s, e).state by { ExecSnoc(cfg, key, None, h, e); }
    CounterIsTrailingOKs(cfg, key, h);
    VerdictsSnoc(h, e);
    var v := Verdicts(h + [e]);
    TrailingOKsExact(v, cfg.resolveSamples);
    if e.Measured() {
      assert v[..|v| - 1] == Verdicts(h) && v[|v| - 1] == e.o.health;
    }
    ClearStep(cfg, key, s, e);
  }

  /** A RESOLVED notice is only ever sent by such an event. */
  lemma {:induction false} ResolvedOnlyOnAllClear(cfg: Config, key: string, h: seq<Event>, e: Event, d: Decision)
    requires cfg.Valid()
    requires d in Apply(cfg, key, StateAfter(cfg, key, h), e).sent && d.alert.kind == RESOLVED
    ensures Firing(StateAfter(cfg, key, h)) && e.Measured()
    ensures EndsWithOKs(Verdicts(h + [e]), cfg.resolveSamples)
  {
    assert Firing(StateAfter(cfg, key, h));
    ExecSnoc(cfg, key, None, h, e);
    NoFalseAllClear(cfg, key, h, e);
  }

  /** A firing key survives any stretch without a good measurement. */
  lemma {:induction false} FiringSurvivesWithoutOKs(cfg: Config, key: string, h: seq<Event>, tail: seq<Event>)
    requires cfg.Valid() && Firing(StateAfter(cfg, key, h))
    requires forall i :: 0 <= i < |tail| && tail[i].Measured() ==> tail[i].o.health == BAD
    ensures Firing(StateAfter(cfg, key, h + tail))
  {
    if tail == [] {
      assert h + tail == h;
    } else {
      var n := |tail| - 1;
      FiringSurvivesWithoutOKs(cfg, key, h, tail[..n]);
      var before := h + tail[..n];
      assert h + tail == before + [tail[n]];
      NoFalseAllClear(cfg, key, before, tail[n]);
      VerdictsSnoc(before, tail[n]);
      if tail[n].Measured() {
        var v := Verdicts(h + tail);
        assert v[|v| - 1] == BAD;
      }
    }
  }
}

/** Muting silences a key without changing what is known about it. */
module Mute {
  import opened Types
  import opened KeyMachine

  predicate Muted(e: Event) { e.Seen? && e.o.suppressed }

  /** The same event with the mute lifted. */
  function Aloud(e: Event): Event {
    if e.Seen? then Seen(e.o.(suppressed := false), e.env) else e
  }

  /** The history without mutes, less the muted events that met an untracked key: those
      never enter the machine. */
  function Entering(cfg: Config, key: string, h: seq<Event>): seq<Event> {
    if h == [] then []
    else
      var p, e := h[..|h| - 1], h[|h| - 1];
      if Muted(e) && StateAfter(cfg, key, p).None? then Entering(cfg, key, p)
      else Entering(cfg, key, p) + [Aloud(e)]
  }

  /** What that history says, less what it says at muted events. */
  function Heard(cfg: Config, key: string, h: seq<Event>): seq<Decision> {
    if h == [] then []
    else
      var n := |h| - 1;
      Heard(cfg, key, h[..n])
      + if Muted(h[n]) then []
        else Apply(cfg, key, StateAfter(cfg, key, Entering(cfg, key, h[..n])), Aloud(h[n])).sent
  }

  /** A mute leaves the record as it would be without it, if and only if the key is
      already tracked or the observation is not a BAD; it never sends. */
  lemma {:induction false} MuteKeepsRecordExactly(cfg: Config, s: Option<KeyRecord>, o: Observation, env: Env)
    requires o.suppressed
    ensures Step(cfg, s, o, env).state == Step(cfg, s, o.(suppressed := false), env).state <==>
            s.Some? || o.health != BAD
    ensures Step(cfg, s, o, env).sent == []
  {
    var aloud := o.(suppressed := false);
    if s.None? && o.health == BAD {
      assert Step(cfg, s, aloud, env).state.Some?;
    }
  }

  lemma {:induction false} MuteStep(cfg: Config, key: string, s: Option<KeyRecord>, e: Event)
    requires Muted(e) && e.o.health == BAD ==> s.Some?
    ensures var r, aloud := Apply(cfg, key, s, e), Apply(cfg, key, s, Aloud(e));
            r.state == aloud.state && r.sent == if Muted(e) then [] else aloud.sent
  {
    if Muted(e) {
      MuteKeepsRecordExactly(cfg, s, e.o, e.env);
    }
  }

  /** Over every history the record is the one without mutes, once the muted events that
      met an untracked key are deleted, and what is sent is what that history would send,
      less the muted events. So an episode that was firing when its mute began still ends
      by the same measurements. */
  lemma {:induction false} MuteStopsOnlyTheSending(cfg: Config, key: string, h: seq<Event>)
    ensures Exec(cfg, key, None, h)
            == Outcome(StateAfter(cfg, key, Entering(cfg, key, h)), Heard(cfg, key, h))
  {
    if h != [] {
      var n := |h| - 1;
      var p := h[..n];
      MuteStopsOnlyTheSending(cfg, key, p);
      if Muted(h[n]) && StateAfter(cfg, key, p).None? {
        assert Heard(cfg, key, p) + [] == Heard(cfg, key, p);
      } else {
        ExecSnoc(cfg, key, None, Entering(cfg, key, p), Aloud(h[n]));
        MuteStep(cfg, key, StateAfter(cfg, key, p), h[n]);
      }
    }
  }
}

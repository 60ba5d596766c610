/** Episodes in the history of one key: how they begin, how they end, and where in the
    history each of the key's decisions was made. */
module Episodes {
  import opened Types
  import opened KeyMachine
  import opened AllClear
  import opened Degraded

  /** Event m is a good measurement completing `resolveSamples` of them in a row. */
  predicate AllClearAt(cfg: Config, h: seq<Event>, m: nat) {
    m < |h| && h[m].Measured() && EndsWithOKs(Verdicts(h[..m + 1]), cfg.resolveSamples)
  }

  /** The key stops firing at event m. */
  predicate ClearedAt(cfg: Config, key: string, h: seq<Event>, m: nat)
    requires m < |h|
  {
    Firing(StateAfter(cfg, key, h[..m])) && !Firing(StateAfter(cfg, key, h[..m + 1]))
  }

  lemma {:induction false} StateAt(cfg: Config, key: string, h: seq<Event>, m: nat)
    requires m < |h|
    ensures StateAfter(cfg, key, h[..m + 1]) == Apply(cfg, key, StateAfter(cfg, key, h[..m]), h[m]).state
  {
    assert h[..m + 1] == h[..m] + [h[m]];
    ExecSnoc(cfg, key, None, h[..m], h[m]);
  }

  lemma {:induction false} ClearedIsAllClear(cfg: Config, key: string, h: seq<Event>, m: nat)
    requires cfg.Valid() && m < |h| && Firing(StateAfter(cfg, key, h[..m]))
    ensures ClearedAt(cfg, key, h, m) <==> AllClearAt(cfg, h, m)
  {
    assert h[..m + 1] == h[..m] + [h[m]];
    NoFalseAllClear(cfg, key, h[..m], h[m]);
  }

  /** A key firing at one point of its history and not at a later one met an all-clear
      in between. */
  lemma {:induction false} EpisodeEndsByAllClear(cfg: Config, key: string, h: seq<Event>, a: nat, b: nat)
    returns (m: nat)
    requires cfg.Valid() && a <= b <= |h|
    requires Firing(StateAfter(cfg, key, h[..a])) && !Firing(StateAfter(cfg, key, h[..b]))
    ensures a <= m < b && AllClearAt(cfg, h, m)
    decreases b
  {
    if Firing(StateAfter(cfg, key, h[..b - 1])) {
      m := b - 1;
      ClearedIsAllClear(cfg, key, h, m);
    } else {
      m := EpisodeEndsByAllClear(cfg, key, h, a, b - 1);
    }
  }

  ghost predicate SentBy(cfg: Config, key: string, h: seq<Event>, i: nat, d: Decision) {
    i < |h| && d in SentAt(cfg, key, h, i)
  }

  /** A FIRE takes its key from not firing to firing. */
  lemma {:induction false} FireOpensEpisode(cfg: Config, key: string, h: seq<Event>, i: nat, d: Decision)
    requires SentBy(cfg, key, h, i, d) && d.alert.kind == FIRE
    ensures !Firing(StateAfter(cfg, key, h[..i])) && Firing(StateAfter(cfg, key, h[..i + 1]))
  {
    StateAt(cfg, key, h, i);
  }

  /** Two FIREs of a key, muted events and repeated observations in between or not,
      enclose an all-clear. */
  lemma {:induction false} FiresEncloseAllClear(
      cfg: Config, key: string, h: seq<Event>, i: nat, j: nat, d: Decision, e: Decision) returns (m: nat)
    requires cfg.Valid() && i < j && SentBy(cfg, key, h, i, d) && SentBy(cfg, key, h, j, e)
    requires d.alert.kind == FIRE && e.alert.kind == FIRE
    ensures i < m < j && AllClearAt(cfg, h, m)
  {
    FireOpensEpisode(cfg, key, h, i, d);
    FireOpensEpisode(cfg, key, h, j, e);
    m := EpisodeEndsByAllClear(cfg, key, h, i + 1, j);
  }

  /** After a FIRE the key fires until an all-clear. */
  lemma {:induction false} FireStandsOrCleared(cfg: Config, key: string, h: seq<Event>, i: nat, d: Decision)
    requires cfg.Valid() && SentBy(cfg, key, h, i, d) && d.alert.kind == FIRE
    ensures Firing(StateAfter(cfg, key, h)) || exists m: nat :: i < m && AllClearAt(cfg, h, m)
  {
    FireOpensEpisode(cfg, key, h, i, d);
    assert h[..|h|] == h;
    if !Firing(StateAfter(cfg, key, h)) {
      var m := EpisodeEndsByAllClear(cfg, key, h, i + 1, |h|);
    }
  }

  // ---- where a decision was made ----

  /** For each decision of a history, the event that made it. */
  function Origins(cfg: Config, key: string, h: seq<Event>): seq<nat> {
    if h == [] then []
    else
      var n := |h| - 1;
      Origins(cfg, key, h[..n]) + seq(|SentAt(cfg, key, h, n)|, _ => n)
  }

  lemma {:induction false} OneWord(cfg: Config, key: string, s: Option<KeyRecord>, e: Event)
    ensures |Apply(cfg, key, s, e).sent| <= 1
  {
  }

  lemma {:induction false} SentAtPrefix(cfg: Config, key: string, h: seq<Event>, n: nat, i: nat)
    requires i < n <= |h|
    ensures SentAt(cfg, key, h[..n], i) == SentAt(cfg, key, h, i)
  {
    assert h[..n][..i] == h[..i];
  }

  lemma {:induction false} OriginsExact(cfg: Config, key: string, h: seq<Event>)
    ensures var o, sent := Origins(cfg, key, h), Exec(cfg, key, None, h).sent;
            && |o| == |sent|
            && (forall k :: 0 <= k < |o| ==> SentBy(cfg, key, h, o[k], sent[k]))
            && (forall k, l :: 0 <= k < l < |o| ==> o[k] < o[l])
  {
    if h != [] {
      var n := |h| - 1;
      var p := h[..n];
      OriginsExact(cfg, key, p);
      OneWord(cfg, key, StateAfter(cfg, key, p), h[n]);
      var o, sent := Origins(cfg, key, h), Exec(cfg, key, None, h).sent;
      assert sent == Exec(cfg, key, None, p).sent + SentAt(cfg, key, h, n);
      forall k | 0 <= k < |Origins(cfg, key, p)|
        ensures SentBy(cfg, key, h, o[k], sent[k]) && o[k] < n
      {
        SentAtPrefix(cfg, key, h, n, o[k]);
      }
    }
  }
}

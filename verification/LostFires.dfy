/** A FIRE that a crash swallowed is not made up for: while the key keeps breaching at its
    tier within the cooldown, nothing at all is posted about it. */
module LostFires {
  import opened Types
  import opened KeyMachine
  import opened AlertMap
  import opened Histories
  import opened Episodes
  import opened Delivery
  import opened Protocol
  import opened Fires
  import opened Losses

  // ---- a key that fired and keeps breaching ----

  /** The event is a breach of the tier that fired, before the cooldown is over; or the end
      of a run. */
  predicate Hushed(cfg: Config, e: Event, fire: Alert) {
    match e
    case Seen(o, env) =>
      && o.health == BAD && o.tier == fire.tier
      && 0 <= env.now - fire.ts < CooldownFor(cfg, o.check, fire.tier)
    case SourceDown(_) => false
    case RunEnd(_) => true
  }

  predicate FiredAs(s: Option<KeyRecord>, fire: Alert) {
    Firing(s) && s.value.tier == fire.tier && s.value.lastNotified == fire.ts
  }

  lemma {:induction false} FireStep(cfg: Config, key: string, s: Option<KeyRecord>, e: Event, d: Decision)
    requires d in Apply(cfg, key, s, e).sent && d.alert.kind == FIRE
    ensures FiredAs(Apply(cfg, key, s, e).state, d.alert)
  {
  }

  lemma {:induction false} FireLeaves(cfg: Config, key: string, h: seq<Event>, a: nat, fire: Alert)
    requires MadeAt(cfg, key, h, a, fire) && fire.kind == FIRE
    ensures a < |h| && FiredAs(StateAfter(cfg, key, h[..a + 1]), fire)
  {
    var d :| SentBy(cfg, key, h, a, d) && d.alert == fire;
    StateAt(cfg, key, h, a);
    FireStep(cfg, key, StateAfter(cfg, key, h[..a]), h[a], d);
  }

  lemma {:induction false} HushedStep(cfg: Config, key: string, s: Option<KeyRecord>, e: Event, fire: Alert)
    requires FiredAs(s, fire) && Hushed(cfg, e, fire)
    ensures FiredAs(Apply(cfg, key, s, e).state, fire) && Apply(cfg, key, s, e).sent == []
  {
  }

  lemma {:induction false} HushedMore(cfg: Config, key: string, h: seq<Event>, e: Event, fire: Alert)
    requires FiredAs(StateAfter(cfg, key, h), fire) && Hushed(cfg, e, fire)
    ensures FiredAs(StateAfter(cfg, key, h + [e]), fire)
    ensures Exec(cfg, key, None, h + [e]).sent == Exec(cfg, key, None, h).sent
  {
    ExecSnoc(cfg, key, None, h, e);
    HushedStep(cfg, key, StateAfter(cfg, key, h), e, fire);
    var sent := Exec(cfg, key, None, h).sent;
    assert sent + [] == sent;
  }

  predicate AllHushed(cfg: Config, h: seq<Event>, fire: Alert) {
    forall i :: 0 <= i < |h| ==> Hushed(cfg, h[i], fire)
  }

  /** Nothing is decided while all is hushed. */
  lemma {:induction false} HushedTail(cfg: Config, key: string, h: seq<Event>, tail: seq<Event>, fire: Alert)
    requires FiredAs(StateAfter(cfg, key, h), fire) && AllHushed(cfg, tail, fire)
    ensures FiredAs(StateAfter(cfg, key, h + tail), fire)
    ensures Exec(cfg, key, None, h + tail).sent == Exec(cfg, key, None, h).sent
  {
    if tail == [] {
      assert h + tail == h;
    } else {
      var n := |tail| - 1;
      var before, e := h + tail[..n], tail[n];
      HushedTail(cfg, key, h, tail[..n], fire);
      HushedMore(cfg, key, before, e, fire);
      assert h + tail == before + [e];
    }
  }

  /** From the FIRE on nothing is decided. */
  lemma {:induction false} HushedSince(cfg: Config, key: string, h: seq<Event>, a: nat, fire: Alert, c: nat)
    requires MadeAt(cfg, key, h, a, fire) && fire.kind == FIRE && a < c <= |h|
    requires forall i :: a < i < c ==> Hushed(cfg, h[i], fire)
    ensures FiredAs(StateAfter(cfg, key, h[..c]), fire)
    ensures Exec(cfg, key, None, h[..c]).sent == Exec(cfg, key, None, h[..a + 1]).sent
  {
    var p, tail, q := h[..a + 1], h[a + 1..c], h[..c];
    assert FiredAs(StateAfter(cfg, key, p), fire) by { FireLeaves(cfg, key, h, a, fire); }
    assert AllHushed(cfg, tail, fire);
    assert q == p + tail;
    HushedTail(cfg, key, p, tail, fire);
  }

  // ---- the log about one key ----

  function KeyPosts(posts: seq<Post>, key: string): seq<Post> {
    if posts == [] then []
    else
      var p := posts[|posts| - 1];
      KeyPosts(posts[..|posts| - 1], key) + if p.alert.key == key then [p] else []
  }

  lemma {:induction false} KeyPostsConcat(a: seq<Post>, b: seq<Post>, key: string)
    ensures KeyPosts(a + b, key) == KeyPosts(a, key) + KeyPosts(b, key)
  {
    if b == [] {
      assert a + b == a;
    } else {
      var n := |b| - 1;
      KeyPostsConcat(a, b[..n], key);
      assert (a + b)[..|a + b| - 1] == a + b[..n];
    }
  }

  lemma {:induction false} SilentKeyPosts(posts: seq<Post>, key: string)
    requires Silent(posts, key)
    ensures KeyPosts(posts, key) == []
  {
    if posts != [] {
      SilentKeyPosts(posts[..|posts| - 1], key);
    }
  }

  /** What all runs but the last, and the last, decide about a key. */
  lemma {:induction false} DecisionsInParts(cfg: Config, runs: seq<Run>, key: string)
    requires ValidRuns(cfg, runs) && runs != []
    ensures var n := |runs| - 1;
            && ValidRuns(cfg, runs[..n])
            && DecisionsOf(ExecRuns(cfg, runs).sent, key)
               == DecisionsOf(ExecRuns(cfg, runs[..n]).sent, key) + DecisionsOf(DecisionsAt(cfg, runs, n), key)
  {
    var n := |runs| - 1;
    ValidPrefix(cfg, runs, n);
    DecisionsOfConcat(ExecRuns(cfg, runs[..n]).sent, DecisionsAt(cfg, runs, n), key);
  }

  lemma {:induction false} DecisionsGrow(cfg: Config, runs: seq<Run>, n: nat, key: string)
    requires ValidRuns(cfg, runs) && n <= |runs|
    ensures ValidRuns(cfg, runs[..n])
    ensures |DecisionsOf(ExecRuns(cfg, runs[..n]).sent, key)| <= |DecisionsOf(ExecRuns(cfg, runs).sent, key)|
  {
    if n == |runs| {
      assert runs[..n] == runs;
    } else {
      var m := |runs| - 1;
      DecisionsInParts(cfg, runs, key);
      DecisionsGrow(cfg, runs[..m], n, key);
      assert runs[..m][..n] == runs[..n];
    }
  }

  lemma {:induction false} SilentRun(cfg: Config, runs: seq<Run>, posted: seq<nat>, key: string)
    requires ValidRuns(cfg, runs) && Progress(cfg, runs, posted) && runs != []
    requires DecisionsOf(DecisionsAt(cfg, runs, |runs| - 1), key) == []
    ensures var n := |runs| - 1;
            && ValidRuns(cfg, runs[..n]) && Progress(cfg, runs[..n], posted[..n])
            && KeyPosts(Delivered(cfg, runs, posted), key) == KeyPosts(Delivered(cfg, runs[..n], posted[..n]), key)
  {
    var n := |runs| - 1;
    PrefixProgress(cfg, runs, posted);
    var before, last := Delivered(cfg, runs[..n], posted[..n]), PostsAt(cfg, runs, n)[..posted[n]];
    SilentPosts(cfg, DecisionsAt(cfg, runs, n), key);
    SilentKeyPosts(last, key);
    KeyPostsConcat(before, last, key);
    assert KeyPosts(before, key) + [] == KeyPosts(before, key);
  }

  lemma {:induction false} SilentStep(cfg: Config, runs: seq<Run>, posted: seq<nat>, key: string, count: nat)
    requires ValidRuns(cfg, runs) && Progress(cfg, runs, posted) && runs != []
    requires ValidRuns(cfg, runs[..|runs| - 1])
    requires |DecisionsOf(ExecRuns(cfg, runs).sent, key)| == count
    requires count <= |DecisionsOf(ExecRuns(cfg, runs[..|runs| - 1]).sent, key)|
    ensures var n := |runs| - 1;
            && Progress(cfg, runs[..n], posted[..n])
            && |DecisionsOf(ExecRuns(cfg, runs[..n]).sent, key)| == count
            && KeyPosts(Delivered(cfg, runs, posted), key) == KeyPosts(Delivered(cfg, runs[..n], posted[..n]), key)
  {
    DecisionsInParts(cfg, runs, key);
    SilentRun(cfg, runs, posted, key);
  }

  /** The runs `was`, of which `had` is posted, are the first ones. */
  predicate Begins(was: seq<Run>, had: seq<nat>, runs: seq<Run>, posted: seq<nat>) {
    && |was| == |had| <= |runs| == |posted|
    && was == runs[..|was|] && had == posted[..|was|]
  }

  lemma {:induction false} BeginsShorter(was: seq<Run>, had: seq<nat>, runs: seq<Run>, posted: seq<nat>)
    requires Begins(was, had, runs, posted)
    ensures |was| == |runs| ==> was == runs && had == posted
    ensures |was| < |runs| ==> Begins(was, had, runs[..|runs| - 1], posted[..|runs| - 1])
  {
  }

  /** If no later run decided anything about the key, nothing was posted about it. */
  lemma {:induction false} SilentRuns(
      cfg: Config, key: string, was: seq<Run>, had: seq<nat>, runs: seq<Run>, posted: seq<nat>)
    requires Begins(was, had, runs, posted)
    requires ValidRuns(cfg, runs) && Progress(cfg, runs, posted) && ValidRuns(cfg, was) && Progress(cfg, was, had)
    requires |DecisionsOf(ExecRuns(cfg, runs).sent, key)| == |DecisionsOf(ExecRuns(cfg, was).sent, key)|
    ensures KeyPosts(Delivered(cfg, runs, posted), key) == KeyPosts(Delivered(cfg, was, had), key)
    decreases |runs|
  {
    BeginsShorter(was, had, runs, posted);
    if |was| < |runs| {
      var p, q := runs[..|runs| - 1], posted[..|runs| - 1];
      DecisionsInParts(cfg, runs, key);
      DecisionsGrow(cfg, p, |was|, key);
      SilentStep(cfg, runs, posted, key, |DecisionsOf(ExecRuns(cfg, was).sent, key)|);
      SilentRuns(cfg, key, was, had, p, q);
    }
  }

  // ---- after the cut ----

  ghost predicate GrewFrom(s: Sys, cut: Sys) {
    var n := |cut.committed|;
    && n <= |s.committed| && n <= |s.posted|
    && s.committed[..n] == cut.committed && s.posted[..n] == cut.posted
    && (s.phase.Saved? ==> n < |s.committed|)
  }

  lemma {:induction false} GrewStep(cfg: Config, s: Sys, t: Sys, cut: Sys)
    requires GrewFrom(s, cut) && Next(cfg, s, t) && |s.posted| == |s.committed|
    ensures GrewFrom(t, cut)
  {
  }

  lemma {:induction false} AtTheCut(cfg: Config, s: Sys, t: Sys)
    requires CutShort(s, t) && Next(cfg, s, t) && |s.posted| == |s.committed|
    ensures GrewFrom(t, s)
  {
    assert s.committed[..|s.committed|] == s.committed && s.posted[..|s.committed|] == s.posted;
  }

  lemma {:induction false} StepAt(cfg: Config, trace: seq<Sys>, n: nat)
    requires Behaviour(cfg, trace) && 0 < n < |trace|
    ensures Next(cfg, trace[n - 1], trace[n])
    ensures var s := trace[n - 1]; Posted(cfg, s) && |s.posted| == |s.committed|
  {
    assert Behaviour(cfg, trace[..n]);
    assert trace[..n][n - 1] == trace[n - 1];
    LogIsPosted(cfg, trace[..n]);
  }

  /** What was committed and posted at a cut stays as it is. */
  lemma {:induction false} CutIsFinal(cfg: Config, trace: seq<Sys>, k: nat, n: nat)
    requires Behaviour(cfg, trace) && CutAt(trace, k) && k < n < |trace|
    ensures GrewFrom(trace[n], trace[k])
    decreases n
  {
    StepAt(cfg, trace, n);
    if n == k + 1 {
      AtTheCut(cfg, trace[k], trace[n]);
    } else {
      CutIsFinal(cfg, trace, k, n - 1);
      GrewStep(cfg, trace[n - 1], trace[n], trace[k]);
    }
  }

  lemma {:induction false} PostWasMade(cfg: Config, runs: seq<Run>, p: Post) returns (a: nat)
    requires ValidRuns(cfg, runs) && runs != [] && p in PostsAt(cfg, runs, |runs| - 1)
    ensures MadeAt(cfg, p.alert.key, HistoryOf(runs, p.alert.key), a, p.alert)
  {
    var key, n := p.alert.key, |runs| - 1;
    PostsExact(cfg, DecisionsAt(cfg, runs, n));
    var d :| d in DecisionsAt(cfg, runs, n) && d.alert == p.alert;
    var sent := ExecRuns(cfg, runs).sent;
    assert sent == ExecRuns(cfg, runs[..n]).sent + DecisionsAt(cfg, runs, n);
    assert d in sent;
    var i :| 0 <= i < |sent| && sent[i] == d;
    RankIsPlace(sent, i);
    RunsProject(cfg, runs, key);
    OriginsExact(cfg, key, HistoryOf(runs, key));
    a := Origins(cfg, key, HistoryOf(runs, key))[Rank(sent, i)];
    assert SentBy(cfg, key, HistoryOf(runs, key), a, d);
  }

  /** What a cut left unposted was made at an event of its key's history. */
  lemma {:induction false} UnsentWasMade(cfg: Config, trace: seq<Sys>, k: nat, p: Post) returns (a: nat)
    requires Behaviour(cfg, trace) && CutAt(trace, k) && p in trace[k].phase.unsent
    ensures MadeAt(cfg, p.alert.key, HistoryOf(trace[k].committed, p.alert.key), a, p.alert)
  {
    assert Behaviour(cfg, trace[..k + 1]) && trace[..k + 1][k] == trace[k];
    CutsLose(cfg, trace[..k + 1]);
    a := PostWasMade(cfg, trace[k].committed, p);
  }

  lemma {:induction false} HushedRuns(cfg: Config, runs: seq<Run>, n: nat, key: string, a: nat, fire: Alert)
    requires ValidRuns(cfg, runs) && n <= |runs| && fire.kind == FIRE
    requires MadeAt(cfg, key, HistoryOf(runs[..n], key), a, fire)
    requires var h := HistoryOf(runs, key); forall i :: a < i < |h| ==> Hushed(cfg, h[i], fire)
    ensures ValidRuns(cfg, runs[..n])
    ensures FiredAs(Lookup(ExecRuns(cfg, runs).alerts, key), fire)
    ensures DecisionsOf(ExecRuns(cfg, runs).sent, key) == DecisionsOf(ExecRuns(cfg, runs[..n]).sent, key)
  {
    var h, p := HistoryOf(runs, key), HistoryOf(runs[..n], key);
    ValidPrefix(cfg, runs, n);
    assert ProjectAll(runs, key)[..n] == ProjectAll(runs[..n], key);
    HistoryPrefix(ProjectAll(runs, key), n);
    assert MadeAt(cfg, key, h, a, fire) by {
      var d :| SentBy(cfg, key, p, a, d) && d.alert == fire;
      SentAtPrefix(cfg, key, h, |p|, a);
      assert SentBy(cfg, key, h, a, d);
    }
    HushedSince(cfg, key, h, a, fire, |p|);
    HushedSince(cfg, key, h, a, fire, |h|);
    assert h[..|h|] == h;
    RunsProject(cfg, runs, key);
    RunsProject(cfg, runs[..n], key);
  }

  /** A FIRE that a process left unposted stays unannounced: as long as the key's committed
      history goes on with breaches of its tier within the cooldown, the log about the key
      stays what it was at the cut, and the state file goes on saying that it fired. */
  lemma {:induction false} LostFireStaysLost(cfg: Config, trace: seq<Sys>, k: nat, p: Post, a: nat)
    requires Behaviour(cfg, trace) && CutAt(trace, k)
    requires p in trace[k].phase.unsent && p.alert.kind == FIRE
    requires MadeAt(cfg, p.alert.key, HistoryOf(trace[k].committed, p.alert.key), a, p.alert)
    requires var h := HistoryOf(trace[|trace| - 1].committed, p.alert.key);
             forall i :: a < i < |h| ==> Hushed(cfg, h[i], p.alert)
    ensures var s, key := trace[|trace| - 1], p.alert.key;
            && KeyPosts(s.log, key) == KeyPosts(trace[k].log, key)
            && FiredAs(Lookup(s.disk.alerts, key), p.alert)
  {
    var s, cut, key := trace[|trace| - 1], trace[k], p.alert.key;
    var n := |cut.committed|;
    CutIsFinal(cfg, trace, k, |trace| - 1);
    LogIsPosted(cfg, trace);
    assert Behaviour(cfg, trace[..k + 1]) && trace[..k + 1][k] == cut;
    LogIsPosted(cfg, trace[..k + 1]);
    HushedRuns(cfg, s.committed, n, key, a, p.alert);
    SilentRuns(cfg, key, cut.committed, cut.posted, s.committed, s.posted);
  }
}

/** From decisions to posts: one per channel of a decision that has an address. */
module Delivery {
  import opened Types
  import opened Route
  import opened KeyMachine
  import opened AlertMap
  import opened Recipients

  datatype Post = Post(alert: Alert, target: string)

  predicate Reachable(cfg: Config, name: string) {
    name in cfg.targets && cfg.targets[name].url != ""
  }

  function PostsTo(cfg: Config, a: Alert, targets: seq<string>): seq<Post> {
    if targets == [] then []
    else
      var n := |targets| - 1;
      PostsTo(cfg, a, targets[..n]) + if Reachable(cfg, targets[n]) then [Post(a, targets[n])] else []
  }

  function PostsOf(cfg: Config, sent: seq<Decision>): seq<Post> {
    if sent == [] then []
    else
      var d := sent[|sent| - 1];
      PostsOf(cfg, sent[..|sent| - 1]) + PostsTo(cfg, d.alert, d.targets)
  }

  lemma {:induction false} PostsToExact(cfg: Config, a: Alert, targets: seq<string>)
    ensures forall p :: p in PostsTo(cfg, a, targets) <==>
              p.alert == a && p.target in targets && Reachable(cfg, p.target)
  {
    if targets != [] {
      var n := |targets| - 1;
      PostsToExact(cfg, a, targets[..n]);
      assert targets == targets[..n] + [targets[n]];
    }
  }

  /** What is posted is exactly each decision to each of its channels with an address. */
  lemma {:induction false} PostsExact(cfg: Config, sent: seq<Decision>)
    ensures forall p :: p in PostsOf(cfg, sent) <==>
              && p.target in cfg.targets && cfg.targets[p.target].url != ""
              && exists d :: d in sent && d.alert == p.alert && p.target in d.targets
  {
    if sent != [] {
      var q, d := sent[..|sent| - 1], sent[|sent| - 1];
      PostsExact(cfg, q);
      PostsToExact(cfg, d.alert, d.targets);
      assert sent == q + [d];
    }
  }

  lemma {:induction false} PostsToAreOf(cfg: Config, a: Alert, targets: seq<string>)
    ensures forall i :: 0 <= i < |PostsTo(cfg, a, targets)| ==> PostsTo(cfg, a, targets)[i].alert == a
  {
    if targets != [] {
      PostsToAreOf(cfg, a, targets[..|targets| - 1]);
    }
  }

  lemma {:induction false} Regroup(x: seq<Post>, y: seq<Post>, z: seq<Post>)
    ensures (x + y) + z == x + (y + z)
  {
  }

  lemma {:induction false} PostsOfConcat(cfg: Config, a: seq<Decision>, b: seq<Decision>)
    ensures PostsOf(cfg, a + b) == PostsOf(cfg, a) + PostsOf(cfg, b)
  {
    if b == [] {
      assert a + b == a;
    } else {
      var n := |b| - 1;
      var d := b[n];
      PostsOfConcat(cfg, a, b[..n]);
      assert (a + b)[..|a + b| - 1] == a + b[..n] && (a + b)[|a + b| - 1] == d;
      Regroup(PostsOf(cfg, a), PostsOf(cfg, b[..n]), PostsTo(cfg, d.alert, d.targets));
    }
  }

  /** `source` names for each post the decision it comes of, in order. */
  predicate Traces(posts: seq<Post>, sent: seq<Decision>, source: seq<nat>) {
    && |source| == |posts|
    && (forall i :: 0 <= i < |posts| ==> source[i] < |sent| && posts[i].alert == sent[source[i]].alert)
    && (forall i, j :: 0 <= i < j < |source| ==> source[i] <= source[j])
  }

  function Shifted(source: seq<nat>, n: nat): (s: seq<nat>)
    ensures |s| == |source| && forall i :: 0 <= i < |s| ==> s[i] == n + source[i]
  {
    seq(|source|, i requires 0 <= i < |source| => n + source[i])
  }

  lemma {:induction false} TracesConcat(
      p: seq<Post>, sent: seq<Decision>, a: seq<nat>, q: seq<Post>, more: seq<Decision>, b: seq<nat>)
    requires Traces(p, sent, a) && Traces(q, more, b)
    ensures Traces(p + q, sent + more, a + Shifted(b, |sent|))
  {
  }

  lemma {:induction false} TracesPrefix(posts: seq<Post>, sent: seq<Decision>, source: seq<nat>, k: nat)
    requires Traces(posts, sent, source) && k <= |posts|
    ensures Traces(posts[..k], sent, source[..k])
  {
  }

  function PostSources(cfg: Config, sent: seq<Decision>): seq<nat> {
    if sent == [] then []
    else
      var d := sent[|sent| - 1];
      PostSources(cfg, sent[..|sent| - 1])
      + Shifted(seq(|PostsTo(cfg, d.alert, d.targets)|, _ => 0), |sent| - 1)
  }

  /** Posts come in the order of their decisions. */
  lemma {:induction false} PostSourcesTrace(cfg: Config, sent: seq<Decision>)
    ensures Traces(PostsOf(cfg, sent), sent, PostSources(cfg, sent))
  {
    if sent != [] {
      var q, d := sent[..|sent| - 1], sent[|sent| - 1];
      var last := PostsTo(cfg, d.alert, d.targets);
      PostSourcesTrace(cfg, q);
      PostsToAreOf(cfg, d.alert, d.targets);
      assert Traces(last, [d], seq(|last|, _ => 0));
      TracesConcat(PostsOf(cfg, q), q, PostSources(cfg, q), last, [d], seq(|last|, _ => 0));
      assert sent == q + [d];
    }
  }

  // ---- nothing is skipped ----

  /** Validation: a channel that is defined has an address. */
  predicate AddressesGiven(cfg: Config) {
    forall n :: n in cfg.targets ==> cfg.targets[n].url != ""
  }

  predicate KnowsChannels(cfg: Config, s: Option<KeyRecord>) {
    s.Some? ==> forall x :: x in s.value.notifiedTargets ==> x in cfg.targets
  }

  lemma {:induction false} ChannelsStep(cfg: Config, key: string, s: Option<KeyRecord>, e: Event)
    requires KnowsChannels(cfg, s)
    ensures KnowsChannels(cfg, Apply(cfg, key, s, e).state)
  {
    if e.Seen? && e.o.health == BAD {
      AdmittedExact(cfg, cfg.TargetsFor(e.o.tier), e.o.tier);
      UnionKeeps(CountBad(s, e.o, e.env).notifiedTargets, RouteTargets(cfg, e.o.tier));
    }
  }

  lemma {:induction false} ChannelsAreKnown(cfg: Config, key: string, h: seq<Event>)
    ensures KnowsChannels(cfg, StateAfter(cfg, key, h))
  {
    if h != [] {
      var n := |h| - 1;
      ChannelsAreKnown(cfg, key, h[..n]);
      ChannelsStep(cfg, key, StateAfter(cfg, key, h[..n]), h[n]);
    }
  }

  lemma {:induction false} AllReachable(cfg: Config, a: Alert, targets: seq<string>)
    requires forall x :: x in targets ==> Reachable(cfg, x)
    ensures PostsTo(cfg, a, targets) == seq(|targets|, i requires 0 <= i < |targets| => Post(a, targets[i]))
  {
    if targets != [] {
      AllReachable(cfg, a, targets[..|targets| - 1]);
    }
  }

  /** With a validated configuration every decision is posted to each of its channels, in
      order: none is skipped. */
  lemma {:induction false} EveryChannelPosted(cfg: Config, key: string, h: seq<Event>, e: Event, d: Decision)
    requires AddressesGiven(cfg) && d in Apply(cfg, key, StateAfter(cfg, key, h), e).sent
    ensures PostsTo(cfg, d.alert, d.targets)
            == seq(|d.targets|, i requires 0 <= i < |d.targets| => Post(d.alert, d.targets[i]))
  {
    if FollowsEpisode(d.alert.kind) {
      ChannelsAreKnown(cfg, key, h);
      FollowUpGoesToNotified(cfg, key, StateAfter(cfg, key, h), e, d);
    } else {
      FloorsRespected(cfg, key, StateAfter(cfg, key, h), e, d);
    }
    AllReachable(cfg, d.alert, d.targets);
  }

  // ---- nothing is repeated within a run ----

  predicate Silent(posts: seq<Post>, key: string) {
    forall i :: 0 <= i < |posts| ==> posts[i].alert.key != key
  }

  /** Two posts about one key are of one decision, and go to two channels. */
  predicate OnceEach(posts: seq<Post>, key: string, distinct: bool) {
    forall i, j :: 0 <= i < j < |posts| && posts[i].alert.key == key && posts[j].alert.key == key ==>
      posts[i].alert == posts[j].alert && (distinct ==> posts[i].target != posts[j].target)
  }

  lemma {:induction false} PostsToOnce(cfg: Config, a: Alert, targets: seq<string>, key: string)
    ensures OnceEach(PostsTo(cfg, a, targets), key, NoDuplicates(targets))
  {
    if targets != [] {
      var n := |targets| - 1;
      PostsToOnce(cfg, a, targets[..n], key);
      PostsToExact(cfg, a, targets[..n]);
      var p := PostsTo(cfg, a, targets[..n]);
      assert forall i :: 0 <= i < |p| ==> p[i] in p;
    }
  }

  lemma {:induction false} OnceConcat(p: seq<Post>, q: seq<Post>, key: string, distinct: bool)
    requires OnceEach(p, key, distinct) && OnceEach(q, key, distinct)
    requires Silent(p, key) || Silent(q, key)
    ensures OnceEach(p + q, key, distinct)
  {
  }

  lemma {:induction false} SilentPosts(cfg: Config, sent: seq<Decision>, key: string)
    requires DecisionsOf(sent, key) == []
    ensures Silent(PostsOf(cfg, sent), key)
  {
    if sent != [] {
      var d := sent[|sent| - 1];
      SilentPosts(cfg, sent[..|sent| - 1], key);
      PostsToAreOf(cfg, d.alert, d.targets);
    }
  }

  lemma {:induction false} PostsOnce(cfg: Config, sent: seq<Decision>, key: string, distinct: bool)
    requires |DecisionsOf(sent, key)| <= 1
    requires distinct ==> forall d :: d in DecisionsOf(sent, key) ==> NoDuplicates(d.targets)
    ensures OnceEach(PostsOf(cfg, sent), key, distinct)
  {
    if sent != [] {
      var q, d := sent[..|sent| - 1], sent[|sent| - 1];
      var last := PostsTo(cfg, d.alert, d.targets);
      PostsOnce(cfg, q, key, distinct);
      PostsToOnce(cfg, d.alert, d.targets, key);
      PostsToAreOf(cfg, d.alert, d.targets);
      if d.alert.key == key {
        assert d in DecisionsOf(sent, key);
        SilentPosts(cfg, q, key);
      }
      OnceConcat(PostsOf(cfg, q), last, key, distinct);
    }
  }
}

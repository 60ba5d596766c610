/** One FIRE per episode, over runs that may crash anywhere. */
module Fires {
  import opened Types
  import opened KeyMachine
  import opened AlertMap
  import opened Histories
  import opened Episodes
  import opened Delivery
  import opened Protocol

  /** What the committed runs observed of a key. */
  function HistoryOf(runs: seq<Run>, key: string): seq<Event> { History(ProjectAll(runs, key)) }

  /** Event a of the history made a decision with this alert. */
  ghost predicate MadeAt(cfg: Config, key: string, h: seq<Event>, a: nat, alert: Alert) {
    exists d :: SentBy(cfg, key, h, a, d) && d.alert == alert
  }

  /** The decisions that the entries of the log come of. */
  function LogSources(cfg: Config, runs: seq<Run>, posted: seq<nat>): seq<nat>
    requires ValidRuns(cfg, runs) && Progress(cfg, runs, posted)
    decreases |runs|
  {
    if runs == [] then []
    else
      var n := |runs| - 1;
      PrefixProgress(cfg, runs, posted);
      PostSourcesTrace(cfg, DecisionsAt(cfg, runs, n));
      LogSources(cfg, runs[..n], posted[..n])
      + Shifted(PostSources(cfg, DecisionsAt(cfg, runs, n))[..posted[n]], |ExecRuns(cfg, runs[..n]).sent|)
  }

  lemma {:induction false} LogSourcesTrace(cfg: Config, runs: seq<Run>, posted: seq<nat>)
    requires ValidRuns(cfg, runs) && Progress(cfg, runs, posted)
    ensures Traces(Delivered(cfg, runs, posted), ExecRuns(cfg, runs).sent, LogSources(cfg, runs, posted))
    decreases |runs|
  {
    if runs != [] {
      var n := |runs| - 1;
      PrefixProgress(cfg, runs, posted);
      LogSourcesTrace(cfg, runs[..n], posted[..n]);
      var more := DecisionsAt(cfg, runs, n);
      PostSourcesTrace(cfg, more);
      TracesPrefix(PostsOf(cfg, more), more, PostSources(cfg, more), posted[n]);
      TracesConcat(Delivered(cfg, runs[..n], posted[..n]), ExecRuns(cfg, runs[..n]).sent,
                   LogSources(cfg, runs[..n], posted[..n]), PostsOf(cfg, more)[..posted[n]], more,
                   PostSources(cfg, more)[..posted[n]]);
    }
  }

  function LogSource(cfg: Config, runs: seq<Run>, posted: seq<nat>, i: nat): (p: nat)
    requires ValidRuns(cfg, runs) && Progress(cfg, runs, posted) && i < |Delivered(cfg, runs, posted)|
    ensures p < |ExecRuns(cfg, runs).sent|
    ensures Delivered(cfg, runs, posted)[i].alert == ExecRuns(cfg, runs).sent[p].alert
  {
    LogSourcesTrace(cfg, runs, posted);
    LogSources(cfg, runs, posted)[i]
  }

  lemma {:induction false} LogSourceRises(cfg: Config, runs: seq<Run>, posted: seq<nat>, i: nat, j: nat)
    requires ValidRuns(cfg, runs) && Progress(cfg, runs, posted) && i <= j < |Delivered(cfg, runs, posted)|
    ensures LogSource(cfg, runs, posted, i) <= LogSource(cfg, runs, posted, j)
  {
    LogSourcesTrace(cfg, runs, posted);
  }

  /** The place of a decision among those about its key. */
  function Rank(sent: seq<Decision>, p: nat): nat
    requires p < |sent|
  {
    |DecisionsOf(sent[..p], sent[p].alert.key)|
  }

  lemma {:induction false} RankIsPlace(sent: seq<Decision>, p: nat)
    requires p < |sent|
    ensures var own := DecisionsOf(sent, sent[p].alert.key); Rank(sent, p) < |own| && own[Rank(sent, p)] == sent[p]
  {
    var key := sent[p].alert.key;
    assert sent == sent[..p] + ([sent[p]] + sent[p + 1..]);
    DecisionsOfConcat(sent[..p], [sent[p]] + sent[p + 1..], key);
    DecisionsOfConcat([sent[p]], sent[p + 1..], key);
    assert [sent[p]][..0] == [];
  }

  lemma {:induction false} RankRises(sent: seq<Decision>, p: nat, q: nat)
    requires p <= q < |sent| && sent[p].alert.key == sent[q].alert.key
    ensures Rank(sent, p) <= Rank(sent, q)
  {
    assert sent[..q] == sent[..p] + sent[p..q];
    DecisionsOfConcat(sent[..p], sent[p..q], sent[p].alert.key);
  }

  lemma {:induction false} EntryHasEvent(cfg: Config, runs: seq<Run>, posted: seq<nat>, i: nat)
    requires ValidRuns(cfg, runs) && Progress(cfg, runs, posted) && i < |Delivered(cfg, runs, posted)|
    ensures var alert := Delivered(cfg, runs, posted)[i].alert;
            var h := HistoryOf(runs, alert.key);
            var k := Rank(ExecRuns(cfg, runs).sent, LogSource(cfg, runs, posted, i));
            && k < |Origins(cfg, alert.key, h)|
            && Origins(cfg, alert.key, h)[k] < |h| && MadeAt(cfg, alert.key, h, Origins(cfg, alert.key, h)[k], alert)
  {
    var sent, p := ExecRuns(cfg, runs).sent, LogSource(cfg, runs, posted, i);
    var key := sent[p].alert.key;
    RankIsPlace(sent, p);
    assert DecisionsOf(sent, key) == Exec(cfg, key, None, HistoryOf(runs, key)).sent by {
      RunsProject(cfg, runs, key);
    }
    OriginsExact(cfg, key, HistoryOf(runs, key));
    assert SentBy(cfg, key, HistoryOf(runs, key), Origins(cfg, key, HistoryOf(runs, key))[Rank(sent, p)], sent[p]);
  }

  /** The event of its key's history that made an entry of the log. */
  function EventOf(cfg: Config, runs: seq<Run>, posted: seq<nat>, i: nat): (a: nat)
    requires ValidRuns(cfg, runs) && Progress(cfg, runs, posted) && i < |Delivered(cfg, runs, posted)|
    ensures var alert := Delivered(cfg, runs, posted)[i].alert;
            a < |HistoryOf(runs, alert.key)| && MadeAt(cfg, alert.key, HistoryOf(runs, alert.key), a, alert)
  {
    var key := Delivered(cfg, runs, posted)[i].alert.key;
    var k := Rank(ExecRuns(cfg, runs).sent, LogSource(cfg, runs, posted, i));
    EntryHasEvent(cfg, runs, posted, i);
    Origins(cfg, key, HistoryOf(runs, key))[k]
  }

  lemma {:induction false} OriginsRise(cfg: Config, key: string, h: seq<Event>, k: nat, l: nat)
    requires k <= l < |Origins(cfg, key, h)|
    ensures Origins(cfg, key, h)[k] <= Origins(cfg, key, h)[l]
  {
    OriginsExact(cfg, key, h);
  }

  /** Entries about a key were made at events of its history in the same order. */
  lemma {:induction false} PostsMadeInOrder(cfg: Config, runs: seq<Run>, posted: seq<nat>, i: nat, j: nat)
    requires ValidRuns(cfg, runs) && Progress(cfg, runs, posted) && i <= j < |Delivered(cfg, runs, posted)|
    requires var log := Delivered(cfg, runs, posted); log[i].alert.key == log[j].alert.key
    ensures EventOf(cfg, runs, posted, i) <= EventOf(cfg, runs, posted, j)
  {
    var key, sent := Delivered(cfg, runs, posted)[i].alert.key, ExecRuns(cfg, runs).sent;
    var p, q := LogSource(cfg, runs, posted, i), LogSource(cfg, runs, posted, j);
    assert Rank(sent, p) <= Rank(sent, q) by {
      LogSourceRises(cfg, runs, posted, i, j);
      RankRises(sent, p, q);
    }
    assert Rank(sent, q) < |Origins(cfg, key, HistoryOf(runs, key))| by {
      EntryHasEvent(cfg, runs, posted, j);
    }
    OriginsRise(cfg, key, HistoryOf(runs, key), Rank(sent, p), Rank(sent, q));
  }

  lemma {:induction false} FiringAfterRuns(cfg: Config, runs: seq<Run>, n: nat, key: string)
    requires ValidRuns(cfg, runs) && n <= |runs|
    ensures var h, p := HistoryOf(runs, key), HistoryOf(runs[..n], key);
            && |p| <= |h|
            && Lookup(AlertsAfter(cfg, runs, n), key) == StateAfter(cfg, key, h[..|p|])
  {
    ValidPrefix(cfg, runs, n);
    RunsProject(cfg, runs[..n], key);
    assert ProjectAll(runs, key)[..n] == ProjectAll(runs[..n], key);
    HistoryPrefix(ProjectAll(runs, key), n);
  }

  /** The key was firing after the first n of some runs and is not after all: some event
      after those n was an all-clear. */
  lemma {:induction false} ClosingRunIsAllClear(cfg: Config, runs: seq<Run>, n: nat, key: string) returns (m: nat)
    requires cfg.Valid() && ValidRuns(cfg, runs) && n <= |runs|
    requires Firing(Lookup(AlertsAfter(cfg, runs, n), key)) && !Firing(Lookup(ExecRuns(cfg, runs).alerts, key))
    ensures |HistoryOf(runs[..n], key)| <= m && AllClearAt(cfg, HistoryOf(runs, key), m)
  {
    var h, p := HistoryOf(runs, key), HistoryOf(runs[..n], key);
    FiringAfterRuns(cfg, runs, n, key);
    FiringAfterRuns(cfg, runs, |runs|, key);
    assert runs[..|runs|] == runs && h[..|h|] == h;
    m := EpisodeEndsByAllClear(cfg, key, h, |p|, |h|);
  }

  /** An all-clear lies between the events, unless they are one. */
  ghost predicate OneOrApart(cfg: Config, h: seq<Event>, a: nat, b: nat) {
    a == b || exists m: nat :: a < m < b && AllClearAt(cfg, h, m)
  }

  lemma {:induction false} FiresApart(cfg: Config, key: string, h: seq<Event>, a: nat, b: nat, x: Alert, y: Alert)
    requires cfg.Valid() && a <= b && MadeAt(cfg, key, h, a, x) && MadeAt(cfg, key, h, b, y)
    requires x.kind == FIRE && y.kind == FIRE
    ensures OneOrApart(cfg, h, a, b)
  {
    if a < b {
      var d :| SentBy(cfg, key, h, a, d) && d.alert == x;
      var e :| SentBy(cfg, key, h, b, e) && e.alert == y;
      var m := FiresEncloseAllClear(cfg, key, h, a, b, d, e);
    }
  }

  /** The log is that of the committed runs. */
  predicate Posted(cfg: Config, s: Sys) {
    && ValidRuns(cfg, s.committed) && Progress(cfg, s.committed, s.posted)
    && s.log == Delivered(cfg, s.committed, s.posted)
  }

  lemma {:induction false} LogIsPosted(cfg: Config, trace: seq<Sys>)
    requires Behaviour(cfg, trace)
    ensures var s := trace[|trace| - 1];
            Posted(cfg, s) && s.disk.alerts == ExecRuns(cfg, s.committed).alerts
  {
    InvHolds(cfg, trace);
  }

  /** No episode delivers two FIREs: two delivered FIREs of a key were made by one event
      and go to two channels, or between the events that made them the key's committed history has an all-clear, even
      if the RESOLVED itself was lost in a crash; however often runs observe the key. */
  lemma {:induction false} NoSecondFire(cfg: Config, trace: seq<Sys>, i: nat, j: nat)
    requires cfg.Valid() && Behaviour(cfg, trace)
    requires var log := trace[|trace| - 1].log;
             && i < j < |log| && log[i].alert.key == log[j].alert.key
             && log[i].alert.kind == FIRE && log[j].alert.kind == FIRE
    ensures var s := trace[|trace| - 1];
            Posted(cfg, s) &&
            var a, b := EventOf(cfg, s.committed, s.posted, i), EventOf(cfg, s.committed, s.posted, j);
            a <= b && OneOrApart(cfg, HistoryOf(s.committed, s.log[i].alert.key), a, b)
  {
    LogIsPosted(cfg, trace);
    var s := trace[|trace| - 1];
    var key := s.log[i].alert.key;
    PostsMadeInOrder(cfg, s.committed, s.posted, i, j);
    FiresApart(cfg, key, HistoryOf(s.committed, key), EventOf(cfg, s.committed, s.posted, i),
               EventOf(cfg, s.committed, s.posted, j), s.log[i].alert, s.log[j].alert);
  }

  /** A delivered FIRE is never forgotten: in every state from then on the durable map
      still has the key firing, unless its committed history has an all-clear since the
      event that made it. */
  lemma {:induction false} DeliveredFireIsRemembered(cfg: Config, trace: seq<Sys>, i: nat)
    requires cfg.Valid() && Behaviour(cfg, trace)
    requires i < |trace[|trace| - 1].log| && trace[|trace| - 1].log[i].alert.kind == FIRE
    ensures var s := trace[|trace| - 1];
            var key := s.log[i].alert.key;
            Posted(cfg, s) &&
            (|| Firing(Lookup(s.disk.alerts, key))
             || exists m: nat :: EventOf(cfg, s.committed, s.posted, i) < m
                  && AllClearAt(cfg, HistoryOf(s.committed, key), m))
  {
    LogIsPosted(cfg, trace);
    var s := trace[|trace| - 1];
    var key, a := s.log[i].alert.key, EventOf(cfg, s.committed, s.posted, i);
    var d :| SentBy(cfg, key, HistoryOf(s.committed, key), a, d) && d.alert == s.log[i].alert;
    RunsProject(cfg, s.committed, key);
    FireStandsOrCleared(cfg, key, HistoryOf(s.committed, key), a, d);
  }
}

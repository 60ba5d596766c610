/** What a crash loses: a run is saved before it posts, so a process that ends in between
    leaves the state file saying that everything was announced. */
module Losses {
  import opened Types
  import opened AlertMap
  import opened Delivery
  import opened Protocol

  /** All that the committed runs had to post. */
  function AllPosts(cfg: Config, runs: seq<Run>): seq<Post>
    requires ValidRuns(cfg, runs)
  {
    PostsOf(cfg, ExecRuns(cfg, runs).sent)
  }

  /** Every one of the first n committed runs posted all of it. */
  predicate PostedAll(cfg: Config, runs: seq<Run>, posted: seq<nat>, n: nat)
    requires ValidRuns(cfg, runs) && Progress(cfg, runs, posted) && n <= |runs|
  {
    forall i :: 0 <= i < n ==> posted[i] == |PostsAt(cfg, runs, i)|
  }

  lemma {:induction false} AllPostsSnoc(cfg: Config, runs: seq<Run>)
    requires ValidRuns(cfg, runs) && runs != []
    ensures var n := |runs| - 1;
            ValidRuns(cfg, runs[..n]) && AllPosts(cfg, runs) == AllPosts(cfg, runs[..n]) + PostsAt(cfg, runs, n)
  {
    var n := |runs| - 1;
    ValidPrefix(cfg, runs, n);
    PostsOfConcat(cfg, ExecRuns(cfg, runs[..n]).sent, DecisionsAt(cfg, runs, n));
  }

  lemma {:induction false} PrefixPosts(cfg: Config, runs: seq<Run>)
    requires ValidRuns(cfg, runs) && runs != []
    ensures var p := runs[..|runs| - 1];
            ValidRuns(cfg, p) && forall i :: 0 <= i < |p| ==> PostsAt(cfg, p, i) == PostsAt(cfg, runs, i)
  {
    PrefixDecisions(cfg, runs);
  }

  lemma {:induction false} PostedAllPrefix(cfg: Config, runs: seq<Run>, posted: seq<nat>)
    requires ValidRuns(cfg, runs) && Progress(cfg, runs, posted) && runs != []
    ensures var n := |runs| - 1;
            && ValidRuns(cfg, runs[..n]) && Progress(cfg, runs[..n], posted[..n])
            && (PostedAll(cfg, runs, posted, |runs|) <==>
                  PostedAll(cfg, runs[..n], posted[..n], n) && posted[n] == |PostsAt(cfg, runs, n)|)
  {
    var n := |runs| - 1;
    PrefixProgress(cfg, runs, posted);
    PrefixPosts(cfg, runs);
    assert PostedAll(cfg, runs[..n], posted[..n], n) <==> PostedAll(cfg, runs, posted, n);
  }

  lemma {:induction false} PartsMatch(p: seq<Post>, all: seq<Post>, q: seq<Post>, k: nat)
    requires |p| <= |all| && k <= |q|
    ensures p + q[..k] == all + q <==> p == all && k == |q|
  {
    if p + q[..k] == all + q {
      assert |p| == |all| && k == |q|;
      assert (p + q[..k])[..|p|] == p && (all + q)[..|p|] == all;
    }
  }

  lemma {:induction false} LogIsAllPosts(cfg: Config, runs: seq<Run>, posted: seq<nat>)
    requires ValidRuns(cfg, runs) && Progress(cfg, runs, posted)
    ensures |Delivered(cfg, runs, posted)| <= |AllPosts(cfg, runs)|
    ensures Delivered(cfg, runs, posted) == AllPosts(cfg, runs) <==> PostedAll(cfg, runs, posted, |runs|)
    decreases |runs|
  {
    if runs != [] {
      var n := |runs| - 1;
      AllPostsSnoc(cfg, runs);
      PostedAllPrefix(cfg, runs, posted);
      LogIsAllPosts(cfg, runs[..n], posted[..n]);
      var p, q := Delivered(cfg, runs[..n], posted[..n]), PostsAt(cfg, runs, n);
      PartsMatch(p, AllPosts(cfg, runs[..n]), q, posted[n]);
    }
  }

  /** What the state of a process says of its last run's posts. */
  predicate Ledger(cfg: Config, s: Sys) {
    && ValidRuns(cfg, s.committed) && Progress(cfg, s.committed, s.posted)
    && (s.phase.Saved? ==>
          && s.committed != []
          && var n := |s.committed| - 1;
          s.phase.unsent == PostsAt(cfg, s.committed, n)[s.posted[n]..])
  }

  lemma {:induction false} InvKeepsLedger(cfg: Config, s: Sys)
    requires Inv(cfg, s)
    ensures Ledger(cfg, s)
  {
  }

  /** The process ended after its save with something left to post. */
  predicate CutShort(s: Sys, t: Sys) {
    s.phase.Saved? && s.phase.unsent != [] && t.phase == Idle
  }

  /** All committed runs but one that is still posting posted all they had. */
  predicate NothingLost(cfg: Config, s: Sys)
    requires Ledger(cfg, s)
  {
    var n := |s.committed|;
    PostedAll(cfg, s.committed, s.posted, if s.phase.Saved? then n - 1 else n)
  }

  lemma {:induction false} NewRunLosesNothing(cfg: Config, runs: seq<Run>, posted: seq<nat>, run: Run)
    requires ValidRuns(cfg, runs) && Progress(cfg, runs, posted)
    requires ValidRuns(cfg, runs + [run]) && Progress(cfg, runs + [run], posted + [0])
    ensures PostedAll(cfg, runs + [run], posted + [0], |runs|) <==> PostedAll(cfg, runs, posted, |runs|)
  {
    assert (runs + [run])[..|runs|] == runs;
    PrefixDecisions(cfg, runs + [run]);
    forall i | 0 <= i < |runs|
      ensures PostsAt(cfg, runs + [run], i) == PostsAt(cfg, runs, i) && (posted + [0])[i] == posted[i]
    {
    }
  }

  lemma {:induction false} EndLoses(cfg: Config, runs: seq<Run>, posted: seq<nat>, unsent: seq<Post>)
    requires ValidRuns(cfg, runs) && Progress(cfg, runs, posted) && runs != []
    requires unsent == PostsAt(cfg, runs, |runs| - 1)[posted[|runs| - 1]..]
    ensures PostedAll(cfg, runs, posted, |runs|) <==> PostedAll(cfg, runs, posted, |runs| - 1) && unsent == []
  {
  }

  lemma {:induction false} PostLosesNothing(cfg: Config, runs: seq<Run>, posted: seq<nat>, more: seq<nat>)
    requires ValidRuns(cfg, runs) && runs != [] && Progress(cfg, runs, posted) && Progress(cfg, runs, more)
    requires forall i :: 0 <= i < |runs| - 1 ==> more[i] == posted[i]
    ensures PostedAll(cfg, runs, more, |runs| - 1) <==> PostedAll(cfg, runs, posted, |runs| - 1)
  {
  }

  lemma {:induction false} StepLoses(cfg: Config, s: Sys, t: Sys)
    requires Ledger(cfg, s) && Ledger(cfg, t) && Next(cfg, s, t)
    ensures NothingLost(cfg, t) <==> NothingLost(cfg, s) && !CutShort(s, t)
  {
    if SaveStep(s, t) {
      NewRunLosesNothing(cfg, s.committed, s.posted, s.phase.run);
    } else if PostStep(s, t) {
      PostLosesNothing(cfg, s.committed, s.posted, t.posted);
    } else if EndStep(s, t) && s.phase.Saved? {
      EndLoses(cfg, s.committed, s.posted, s.phase.unsent);
    } else {
      assert t.committed == s.committed && t.posted == s.posted && !s.phase.Saved? && !t.phase.Saved?;
    }
  }

  predicate CutAt(trace: seq<Sys>, k: nat) {
    k + 1 < |trace| && CutShort(trace[k], trace[k + 1])
  }

  ghost predicate SomeCut(trace: seq<Sys>) {
    exists k: nat :: CutAt(trace, k)
  }

  lemma {:induction false} CutsSnoc(trace: seq<Sys>)
    requires |trace| > 1
    ensures SomeCut(trace) <==>
            SomeCut(trace[..|trace| - 1]) || CutShort(trace[|trace| - 2], trace[|trace| - 1])
  {
    var n, p := |trace| - 2, trace[..|trace| - 1];
    assert CutAt(trace, n) <==> CutShort(trace[n], trace[n + 1]);
    assert forall k: nat :: k < n ==> CutAt(p, k) == CutAt(trace, k);
    assert forall k: nat :: k >= n ==> !CutAt(p, k);
    if SomeCut(trace) {
      var k: nat :| CutAt(trace, k);
      assert k < n ==> CutAt(p, k);
    }
    if SomeCut(p) {
      var k: nat :| CutAt(p, k);
      assert CutAt(trace, k);
    }
  }

  lemma {:induction false} CutsLose(cfg: Config, trace: seq<Sys>)
    requires Behaviour(cfg, trace)
    ensures Ledger(cfg, trace[|trace| - 1])
    ensures NothingLost(cfg, trace[|trace| - 1]) <==> !SomeCut(trace)
  {
    InvHolds(cfg, trace);
    InvKeepsLedger(cfg, trace[|trace| - 1]);
    if |trace| > 1 {
      var n := |trace| - 2;
      var p := trace[..n + 1];
      assert Behaviour(cfg, p);
      CutsLose(cfg, p);
      assert p[|p| - 1] == trace[n] && Next(cfg, trace[n], trace[n + 1]);
      StepLoses(cfg, trace[n], trace[n + 1]);
      CutsSnoc(trace);
    }
  }

  lemma {:induction false} LogIsDelivered(cfg: Config, trace: seq<Sys>)
    requires Behaviour(cfg, trace)
    ensures var s := trace[|trace| - 1]; Ledger(cfg, s) && s.log == Delivered(cfg, s.committed, s.posted)
  {
    InvHolds(cfg, trace);
    InvKeepsLedger(cfg, trace[|trace| - 1]);
  }

  lemma {:induction false} LedgerComplete(cfg: Config, s: Sys)
    requires Ledger(cfg, s) && s.log == Delivered(cfg, s.committed, s.posted)
    ensures s.log == AllPosts(cfg, s.committed) <==> NothingLost(cfg, s) && !(s.phase.Saved? && s.phase.unsent != [])
  {
    LogIsAllPosts(cfg, s.committed, s.posted);
    if s.phase.Saved? {
      EndLoses(cfg, s.committed, s.posted, s.phase.unsent);
    }
  }

  /** Posting is at most once, not exactly once: the log is all that the committed runs had
      to post if and only if no process ended between its save and its last post, and none
      is posting now. What one such end leaves unposted no later run posts. */
  lemma {:induction false} LogCompleteExactly(cfg: Config, trace: seq<Sys>)
    requires Behaviour(cfg, trace)
    ensures var s := trace[|trace| - 1];
            ValidRuns(cfg, s.committed) &&
            (s.log == AllPosts(cfg, s.committed) <==>
               !SomeCut(trace) && !(s.phase.Saved? && s.phase.unsent != []))
  {
    CutsLose(cfg, trace);
    LogIsDelivered(cfg, trace);
    LedgerComplete(cfg, trace[|trace| - 1]);
  }

  /** Whatever a process has to post can be lost: it saves and dies, and the state file
      says that all of it was announced. */
  lemma {:induction false} CrashLosesPosts(cfg: Config, trace: seq<Sys>) returns (longer: seq<Sys>)
    requires Behaviour(cfg, trace)
    requires trace[|trace| - 1].phase.Evaluated? && trace[|trace| - 1].phase.posts != []
    ensures Behaviour(cfg, longer) && SomeCut(longer)
    ensures var s, t := trace[|trace| - 1], longer[|longer| - 1];
            t.phase == Idle && t.log == s.log && t.disk == s.phase.next && t.committed == s.committed + [s.phase.run]
  {
    var n, s := |trace| - 1, trace[|trace| - 1];
    var a := Sys(s.phase.next, Saved(s.phase.posts), s.log, s.committed + [s.phase.run],
                 s.samples + [s.phase.sample], s.memories + [s.phase.next.memory], s.posted + [0]);
    var b := a.(phase := Idle);
    assert SaveStep(s, a) && EndStep(a, b);
    longer := trace + [a, b];
    assert longer[n] == s && longer[n + 1] == a && longer[n + 2] == b && CutAt(longer, n + 1);
  }
}

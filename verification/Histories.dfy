/** The shape of real histories: run ids grow, and every event of a run carries its id.
    Nothing limits how often a run observes a key. */
module Histories {
  import opened KeyMachine

  /** Run ids only grow. */
  ghost predicate Rising(ticks: seq<Tick>) {
    forall i, j :: 0 <= i < j < |ticks| ==> ticks[i].env.runID < ticks[j].env.runID
  }

  ghost predicate AtMost(ticks: seq<Tick>, limit: nat) {
    forall i :: 0 <= i < |ticks| ==> |ticks[i].obs| <= limit
  }

  function IdOf(e: Event): int {
    if e.RunEnd? then e.runID else e.env.runID
  }

  predicate MayFollow(h: seq<Event>, e: Event) {
    h == [] ||
    var last := h[|h| - 1];
    if last.RunEnd? then IdOf(last) < IdOf(e) else IdOf(last) == IdOf(e)
  }

  /** The events fall into runs, the last one possibly unfinished. */
  predicate InRuns(h: seq<Event>) {
    h == [] || (InRuns(h[..|h| - 1]) && MayFollow(h[..|h| - 1], h[|h| - 1]))
  }

  lemma {:induction false} InRunsSnoc(h: seq<Event>, e: Event)
    requires InRuns(h) && MayFollow(h, e)
    ensures InRuns(h + [e])
  {
    assert (h + [e])[..|h|] == h;
  }

  lemma {:induction false} InRunsPrefix(h: seq<Event>, n: nat)
    requires InRuns(h) && n <= |h|
    ensures InRuns(h[..n])
    ensures n < |h| ==> MayFollow(h[..n], h[n])
  {
    if n < |h| - 1 {
      InRunsPrefix(h[..|h| - 1], n);
      assert h[..|h| - 1][..n] == h[..n];
    } else if n == |h| {
      assert h[..n] == h;
    }
  }

  /** The key was observed since the last run ended. */
  predicate SeenInRun(h: seq<Event>) {
    h != [] &&
    match h[|h| - 1]
    case Seen(_, _) => true
    case SourceDown(_) => SeenInRun(h[..|h| - 1])
    case RunEnd(_) => false
  }

  lemma {:induction false} SeenInRunSnoc(h: seq<Event>, e: Event)
    ensures SeenInRun(h + [e]) == (e.Seen? || (e.SourceDown? && SeenInRun(h)))
  {
    assert (h + [e])[..|h|] == h;
  }

  /** Some events of one run, no end among them. */
  lemma {:induction false} InRunsAppend(h: seq<Event>, g: seq<Event>, id: int)
    requires InRuns(h) && (h == [] || (h[|h| - 1].RunEnd? && IdOf(h[|h| - 1]) < id))
    requires forall i :: 0 <= i < |g| ==> IdOf(g[i]) == id && !g[i].RunEnd?
    ensures InRuns(h + g)
  {
    if g == [] {
      assert h + g == h;
    } else {
      var n := |g| - 1;
      InRunsAppend(h, g[..n], id);
      assert h + g == (h + g[..n]) + [g[n]];
      InRunsSnoc(h + g[..n], g[n]);
    }
  }

  lemma {:induction false} HistorySnoc(ticks: seq<Tick>, t: Tick)
    ensures History(ticks + [t]) == History(ticks) + EventsOf(t)
  {
    assert (ticks + [t])[..|ticks|] == ticks;
  }

  /** Runs with growing ids make such a history. */
  lemma {:induction false} HistoryInRuns(ticks: seq<Tick>)
    requires Rising(ticks)
    ensures var h := History(ticks);
            InRuns(h) && (ticks != [] ==> h != [] && h[|h| - 1] == RunEnd(ticks[|ticks| - 1].env.runID))
    ensures ticks == [] ==> History(ticks) == []
  {
    if ticks != [] {
      var n := |ticks| - 1;
      var h, t := History(ticks[..n]), ticks[n];
      HistoryInRuns(ticks[..n]);
      var g := Sightings(t.obs, t.env) + if t.down then [SourceDown(t.env)] else [];
      InRunsAppend(h, g, t.env.runID);
      InRunsSnoc(h + g, RunEnd(t.env.runID));
      assert h + EventsOf(t) == (h + g) + [RunEnd(t.env.runID)];
    }
  }

  /** The history of the first runs begins the history of all. */
  lemma {:induction false} HistoryPrefix(ticks: seq<Tick>, n: nat)
    requires n <= |ticks|
    ensures var p, h := History(ticks[..n]), History(ticks); |p| <= |h| && h[..|p|] == p
  {
    if n == |ticks| {
      assert ticks[..n] == ticks;
    } else {
      var q := ticks[..|ticks| - 1];
      HistoryPrefix(q, n);
      assert q[..n] == ticks[..n];
    }
  }
}

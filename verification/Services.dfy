/** Crash-loop memory: the windowed exit-event store that must answer as a log of every
    crash ever seen would, and the restart baseline. */
module Services {
  import opened Types
  import opened Collect

  const SECOND: int := 1_000_000_000

  /** Whole seconds since the Unix epoch, rounding down. */
  function Unix(t: int): int { t / SECOND - 62_135_596_800 }

  datatype ExitEvent = ExitEvent(containerID: string, at: int)

  datatype ServiceState = ServiceState(
    lastRestartCount: nat,
    lastOOMKill: nat,
    exitEvents: seq<ExitEvent>,
    lastSeenRun: int,
    bootID: string)

  function EventsOf(s: Option<ServiceState>): seq<ExitEvent> {
    if s.Some? then s.value.exitEvents else []
  }

  // ---- the store ----

  /** The crashes visible in a sample, in container order. */
  function CrashRecords(cts: seq<Container>): seq<ExitEvent> {
    if cts == [] then []
    else
      var c := cts[|cts| - 1];
      CrashRecords(cts[..|cts| - 1]) + if c.CrashExit() then [ExitEvent(c.id, c.finishedAt)] else []
  }

  function Since(events: seq<ExitEvent>, cutoff: int): seq<ExitEvent> {
    if events == [] then []
    else
      var e := events[|events| - 1];
      Since(events[..|events| - 1], cutoff) + if e.at >= cutoff then [e] else []
  }

  /** The instant last written under each id. */
  function LastValues(events: seq<ExitEvent>): map<string, int> {
    if events == [] then map[]
    else
      var e := events[|events| - 1];
      LastValues(events[..|events| - 1])[e.containerID := e.at]
  }

  lemma {:induction false} LastValuesSnoc(all: seq<ExitEvent>, e: ExitEvent)
    ensures LastValues(all + [e]) == LastValues(all)[e.containerID := e.at]
  {
    assert (all + [e])[..|all|] == all;
  }

  function Merged(prev: seq<ExitEvent>, cts: seq<Container>, cutoff: int): map<string, int> {
    LastValues(Since(prev, cutoff) + Since(CrashRecords(cts), cutoff))
  }

  /** A container's exits are only ever reported later. */
  ghost predicate ReportedInOrder(log: seq<ExitEvent>) {
    forall i, j :: 0 <= i < j < |log| && log[i].containerID == log[j].containerID ==> log[i].at <= log[j].at
  }

  /** The same, one record at a time. */
  predicate LaterExits(log: seq<ExitEvent>) {
    log == [] ||
    var n := |log| - 1;
    && LaterExits(log[..n])
    && forall e :: e in log[..n] && e.containerID == log[n].containerID ==> e.at <= log[n].at
  }

  predicate DistinctIDs(events: seq<ExitEvent>) {
    events == [] ||
    var n := |events| - 1;
    DistinctIDs(events[..n]) && forall e :: e in events[..n] ==> e.containerID != events[n].containerID
  }

  /** The events are the entries of the map, each once, in some order. */
  predicate Enumerates(events: seq<ExitEvent>, m: map<string, int>) {
    && DistinctIDs(events) && |events| == |m|
    && (forall e :: e in events ==> e.containerID in m && m[e.containerID] == e.at)
    && (forall id :: id in m ==> ExitEvent(id, m[id]) in events)
  }

  lemma {:induction false} SinceSnoc(events: seq<ExitEvent>, e: ExitEvent, cutoff: int)
    ensures Since(events + [e], cutoff) == Since(events, cutoff) + if e.at >= cutoff then [e] else []
  {
    assert (events + [e])[..|events|] == events;
  }

  /** Reading one more stored event. */
  lemma {:induction false} KeepOne(prev: seq<ExitEvent>, i: nat, cutoff: int)
    requires i < |prev|
    ensures var m, e := LastValues(Since(prev[..i], cutoff)), prev[i];
            LastValues(Since(prev[..i + 1], cutoff)) == if e.at >= cutoff then m[e.containerID := e.at] else m
  {
    assert prev[..i + 1] == prev[..i] + [prev[i]];
    var kept := Since(prev[..i], cutoff);
    SinceSnoc(prev[..i], prev[i], cutoff);
    LastValuesSnoc(kept, prev[i]);
    assert kept + [] == kept;
  }

  lemma {:induction false} RecordsSnoc(cts: seq<Container>, i: nat)
    requires i < |cts|
    ensures CrashRecords(cts[..i + 1])
            == if cts[i].CrashExit() then CrashRecords(cts[..i]) + [ExitEvent(cts[i].id, cts[i].finishedAt)]
               else CrashRecords(cts[..i])
  {
    assert cts[..i + 1][..i] == cts[..i];
    var before := CrashRecords(cts[..i]);
    assert before + [] == before;
  }

  lemma {:induction false} WriteOneMore(kept: seq<ExitEvent>, recent: seq<ExitEvent>, e: ExitEvent)
    ensures LastValues(kept + (recent + [e])) == LastValues(kept + recent)[e.containerID := e.at]
  {
    assert kept + (recent + [e]) == (kept + recent) + [e];
    LastValuesSnoc(kept + recent, e);
  }

  /** Reading one more container after the stored events. */
  lemma {:induction false} AddOne(kept: seq<ExitEvent>, cts: seq<Container>, i: nat, cutoff: int)
    requires i < |cts|
    ensures var m := LastValues(kept + Since(CrashRecords(cts[..i]), cutoff));
            LastValues(kept + Since(CrashRecords(cts[..i + 1]), cutoff))
            == if cts[i].CrashExit() && cts[i].finishedAt >= cutoff then m[cts[i].id := cts[i].finishedAt] else m
  {
    RecordsSnoc(cts, i);
    var before, e := CrashRecords(cts[..i]), ExitEvent(cts[i].id, cts[i].finishedAt);
    if cts[i].CrashExit() {
      SinceSnoc(before, e, cutoff);
      if e.at >= cutoff {
        WriteOneMore(kept, Since(before, cutoff), e);
      } else {
        assert Since(before, cutoff) + [] == Since(before, cutoff);
      }
    }
  }

  method Enumerate(m: map<string, int>) returns (out: seq<ExitEvent>)
    ensures Enumerates(out, m)
  {
    out := [];
    var todo := m.Keys;
    while todo != {}
      invariant todo <= m.Keys && DistinctIDs(out) && |out| + |todo| == |m|
      invariant forall e :: e in out ==> e.containerID in m && e.containerID !in todo && m[e.containerID] == e.at
      invariant forall id :: id in m && id !in todo ==> ExitEvent(id, m[id]) in out
      decreases todo
    {
      var id :| id in todo;
      assert (out + [ExitEvent(id, m[id])])[..|out|] == out;
      out := out + [ExitEvent(id, m[id])];
      todo := todo - {id};
    }
  }

  method MergeExitEvents(prev: seq<ExitEvent>, cts: seq<Container>, cutoff: int) returns (out: seq<ExitEvent>)
    ensures Enumerates(out, Merged(prev, cts, cutoff))
  {
    var byID: map<string, int> := map[];
    for i := 0 to |prev|
      invariant byID == LastValues(Since(prev[..i], cutoff))
    {
      KeepOne(prev, i, cutoff);
      if !(prev[i].at < cutoff) {
        byID := byID[prev[i].containerID := prev[i].at];
      }
    }
    assert prev[..|prev|] == prev;
    ghost var kept := Since(prev, cutoff);
    assert kept + [] == kept;
    for i := 0 to |cts|
      invariant byID == LastValues(kept + Since(CrashRecords(cts[..i]), cutoff))
    {
      AddOne(kept, cts, i, cutoff);
      if cts[i].CrashExit() && !(cts[i].finishedAt < cutoff) {
        byID := byID[cts[i].id := cts[i].finishedAt];
      }
    }
    assert cts[..|cts|] == cts;
    out := Enumerate(byID);
  }

  function InWindow(events: seq<ExitEvent>, cutoffUnix: int): set<string> {
    set e | e in events && Unix(e.at) >= cutoffUnix :: e.containerID
  }

  lemma {:induction false} WindowConcat(a: seq<ExitEvent>, b: seq<ExitEvent>, u: int)
    ensures InWindow(a + b, u) == InWindow(a, u) + InWindow(b, u)
  {
    assert forall e :: e in a + b <==> e in a || e in b;
  }

  lemma {:induction false} WindowOfOne(e: ExitEvent, u: int)
    ensures InWindow([e], u) == if Unix(e.at) >= u then {e.containerID} else {}
  {
    assert e in [e];
  }

  lemma {:induction false} WindowOfOneMore(cts: seq<Container>, i: nat, u: int)
    requires i < |cts|
    ensures InWindow(CrashRecords(cts[..i + 1]), u)
            == InWindow(CrashRecords(cts[..i]), u)
               + if cts[i].CrashExit() && Unix(cts[i].finishedAt) >= u then {cts[i].id} else {}
  {
    assert cts[..i + 1][..i] == cts[..i];
    var before, e := CrashRecords(cts[..i]), ExitEvent(cts[i].id, cts[i].finishedAt);
    WindowConcat(before, [e], u);
    WindowOfOne(e, u);
    assert before + [] == before;
  }

  method CountWindowCrashes(prev: Option<ServiceState>, cts: seq<Container>, cutoffUnix: int) returns (n: nat)
    ensures n == |InWindow(EventsOf(prev), cutoffUnix) + InWindow(CrashRecords(cts), cutoffUnix)|
  {
    var seen := {};
    if prev.Some? {
      var events := prev.value.exitEvents;
      for i := 0 to |events|
        invariant seen == InWindow(events[..i], cutoffUnix)
      {
        assert events[..i + 1] == events[..i] + [events[i]];
        WindowConcat(events[..i], [events[i]], cutoffUnix);
        WindowOfOne(events[i], cutoffUnix);
        if Unix(events[i].at) >= cutoffUnix {
          seen := seen + {events[i].containerID};
        }
      }
      assert events[..|events|] == events;
    }
    ghost var stored := InWindow(EventsOf(prev), cutoffUnix);
    assert seen == stored + InWindow([], cutoffUnix);
    for i := 0 to |cts|
      invariant seen == stored + InWindow(CrashRecords(cts[..i]), cutoffUnix)
    {
      WindowOfOneMore(cts, i, cutoffUnix);
      if cts[i].CrashExit() && Unix(cts[i].finishedAt) >= cutoffUnix {
        seen := seen + {cts[i].id};
      }
    }
    assert cts[..|cts|] == cts;
    n := |seen|;
  }

  // ---- one service over its runs ----

  /** One run as one service sees it. */
  datatype ServiceRun = ServiceRun(now: int, dockerOK: bool, cts: seq<Container>, runID: int, bootID: string)

  function MaxInspected(cts: seq<Container>): Option<nat> {
    if cts == [] then None
    else
      var c := cts[|cts| - 1];
      var before := MaxInspected(cts[..|cts| - 1]);
      if !c.inspected then before
      else if before.Some? && before.value >= c.restartCount then before
      else Some(c.restartCount)
  }

  function MaxOOMKill(cts: seq<Container>): nat {
    if cts == [] then 0
    else
      var c := cts[|cts| - 1];
      var before := MaxOOMKill(cts[..|cts| - 1]);
      if c.cgroup.health == OK && c.cgroup.oomKillCount > before then c.cgroup.oomKillCount else before
  }

  function Forgotten(s: Option<ServiceState>, runID: int): Option<ServiceState> {
    if s.Some? && s.value.lastSeenRun != runID && s.value.exitEvents == [] then None else s
  }

  /** What a run may make of a service's record; the store's order is free. */
  predicate ServiceStep(s: Option<ServiceState>, r: ServiceRun, window: int, t: Option<ServiceState>) {
    if r.dockerOK && r.cts != [] then
      var base := if s.Some? then s.value else ServiceState(0, 0, [], 0, "");
      && t.Some? && t.value.lastSeenRun == r.runID && t.value.bootID == r.bootID
      && t.value.lastRestartCount == (match MaxInspected(r.cts) case Some(n) => n case None => base.lastRestartCount)
      && t.value.lastOOMKill == MaxOOMKill(r.cts)
      && Enumerates(t.value.exitEvents, Merged(base.exitEvents, r.cts, r.now - window))
    else
      t == Forgotten(s, r.runID)
  }

  /** Records along a sequence of runs. */
  predicate Continues(states: seq<Option<ServiceState>>, runs: seq<ServiceRun>, window: int)
    decreases |runs|
  {
    && |states| == |runs| + 1
    && (runs == [] ||
        var n := |runs| - 1;
        Continues(states[..n + 1], runs[..n], window) && ServiceStep(states[n], runs[n], window, states[n + 1]))
  }

  /** The same from an empty state file. */
  predicate Follows(states: seq<Option<ServiceState>>, runs: seq<ServiceRun>, window: int) {
    Continues(states, runs, window) && states[0].None?
  }

  /** The crashes a run's sample shows; none when Docker could not be read. */
  function Reported(r: ServiceRun): seq<ExitEvent> {
    if r.dockerOK then CrashRecords(r.cts) else []
  }

  /** Every crash any sample ever showed. */
  function CrashLog(runs: seq<ServiceRun>): seq<ExitEvent> {
    if runs == [] then []
    else
      var r := runs[|runs| - 1];
      CrashLog(runs[..|runs| - 1]) + Reported(r)
  }

  /** The first instant of the whole second that t lies in. */
  function SecondStart(t: int): int { t / SECOND * SECOND }

  /** The counter compares whole seconds, the pruner full precision: no earlier run may
      have pruned into the second in which the last run's window begins. */
  ghost predicate CutoffsClear(runs: seq<ServiceRun>, window: int) {
    forall i :: 0 <= i < |runs| - 1 ==>
      runs[i].now - window <= SecondStart(runs[|runs| - 1].now - window)
  }

  // ---- the store refines the log ----

  ghost predicate CoveredBy(events: seq<ExitEvent>, e: ExitEvent) {
    exists f :: f in events && f.containerID == e.containerID && f.at >= e.at
  }

  /** The store holds only logged crashes, and covers every logged crash not older than
      the cutoff by one at least as late. */
  ghost predicate Covers(events: seq<ExitEvent>, log: seq<ExitEvent>, cutoff: int) {
    && (forall e :: e in events ==> e in log)
    && (forall e {:trigger CoveredBy(events, e)} :: e in log && e.at >= cutoff ==> CoveredBy(events, e))
  }

  lemma {:induction false} SinceExact(events: seq<ExitEvent>, cutoff: int)
    ensures forall e :: e in Since(events, cutoff) <==> e in events && e.at >= cutoff
  {
    if events != [] {
      var n := |events| - 1;
      SinceExact(events[..n], cutoff);
      assert events == events[..n] + [events[n]];
    }
  }

  /** The map keeps, under each id, an entry at least as late as every one written. */
  lemma {:induction false} LastValuesLatest(all: seq<ExitEvent>)
    requires LaterExits(all)
    ensures var m := LastValues(all);
            && (forall e :: e in all ==> e.containerID in m && m[e.containerID] >= e.at)
            && (forall id :: id in m ==> ExitEvent(id, m[id]) in all)
  {
    if all != [] {
      var n := |all| - 1;
      LastValuesLatest(all[..n]);
      assert all == all[..n] + [all[n]];
    }
  }

  lemma {:induction false} SinceKeepsOrder(events: seq<ExitEvent>, cutoff: int)
    requires LaterExits(events) || DistinctIDs(events)
    ensures LaterExits(Since(events, cutoff))
  {
    if events != [] {
      var n := |events| - 1;
      var p, e := events[..n], events[n];
      SinceKeepsOrder(p, cutoff);
      SinceExact(p, cutoff);
      var q := Since(p, cutoff);
      assert (q + [e])[..|q|] == q && q + [] == q;
      assert forall x :: x in q ==> x in p;
    }
  }

  lemma {:induction false} LaterThanPrefix(p: seq<ExitEvent>, e: ExitEvent)
    ensures LaterExits(p + [e]) <==>
            LaterExits(p) && forall x :: x in p && x.containerID == e.containerID ==> x.at <= e.at
  {
    assert (p + [e])[..|p|] == p;
  }

  lemma {:induction false} LastIsLater(a: seq<ExitEvent>, p: seq<ExitEvent>, f: ExitEvent)
    requires LaterExits(a + (p + [f]))
    ensures LaterExits(a + p)
    ensures forall x :: (x in a || x in p) && x.containerID == f.containerID ==> x.at <= f.at
  {
    assert a + (p + [f]) == (a + p) + [f];
    LaterThanPrefix(a + p, f);
    assert forall x :: x in a || x in p ==> x in a + p;
  }

  /** Both parts are in order, and the second later than the first. */
  lemma {:induction false} SplitLater(a: seq<ExitEvent>, b: seq<ExitEvent>)
    requires LaterExits(a + b)
    ensures LaterExits(a) && LaterExits(b)
    ensures forall e, f :: e in a && f in b && e.containerID == f.containerID ==> e.at <= f.at
  {
    if b == [] {
      assert a + b == a;
    } else {
      var p, f := b[..|b| - 1], b[|b| - 1];
      assert b == p + [f];
      LastIsLater(a, p, f);
      SplitLater(a, p);
      assert LaterExits(b) by { LaterThanPrefix(p, f); }
    }
  }

  lemma {:induction false} AppendLater(a: seq<ExitEvent>, p: seq<ExitEvent>, f: ExitEvent)
    requires LaterExits(a + p)
    requires forall x :: (x in a || x in p) && x.containerID == f.containerID ==> x.at <= f.at
    ensures LaterExits(a + (p + [f]))
  {
    assert a + (p + [f]) == (a + p) + [f];
    LaterThanPrefix(a + p, f);
  }

  lemma {:induction false} JoinLater(a: seq<ExitEvent>, b: seq<ExitEvent>)
    requires LaterExits(a) && LaterExits(b)
    requires forall e, f :: e in a && f in b && e.containerID == f.containerID ==> e.at <= f.at
    ensures LaterExits(a + b)
  {
    if b == [] {
      assert a + b == a;
    } else {
      var p, f := b[..|b| - 1], b[|b| - 1];
      assert b == p + [f];
      LaterThanPrefix(p, f);
      JoinLater(a, p);
      AppendLater(a, p, f);
    }
  }

  /** What is written in one merge is written in order of exit. */
  lemma {:induction false} MergeInOrder(prev: seq<ExitEvent>, log: seq<ExitEvent>, records: seq<ExitEvent>, cutoff: int)
    requires DistinctIDs(prev) && (forall e :: e in prev ==> e in log) && LaterExits(log + records)
    ensures LaterExits(Since(prev, cutoff) + Since(records, cutoff))
  {
    SplitLater(log, records);
    SinceKeepsOrder(prev, cutoff);
    SinceKeepsOrder(records, cutoff);
    SinceExact(prev, cutoff);
    SinceExact(records, cutoff);
    JoinLater(Since(prev, cutoff), Since(records, cutoff));
  }

  lemma {:induction false} MergeCovers(
      prev: seq<ExitEvent>, log: seq<ExitEvent>, cts: seq<Container>, cutoff: int, out: seq<ExitEvent>, bound: int)
    requires DistinctIDs(prev) && Covers(prev, log, bound) && cutoff <= bound
    requires LaterExits(log + CrashRecords(cts)) && Enumerates(out, Merged(prev, cts, cutoff))
    ensures Covers(out, log + CrashRecords(cts), bound)
  {
    var records := CrashRecords(cts);
    var all := Since(prev, cutoff) + Since(records, cutoff);
    MergeInOrder(prev, log, records, cutoff);
    LastValuesLatest(all);
    SinceExact(prev, cutoff);
    SinceExact(records, cutoff);
    var m := LastValues(all);
    forall e | e in log + records && e.at >= bound
      ensures CoveredBy(out, e)
    {
      assert e in log ==> CoveredBy(prev, e);
      var w := if e in records then e
               else var f :| f in prev && f.containerID == e.containerID && f.at >= e.at; f;
      assert w in all && w.containerID in m && m[w.containerID] >= w.at;
      assert ExitEvent(w.containerID, m[w.containerID]) in out;
    }
    forall e | e in out
      ensures e in log + records
    {
      assert ExitEvent(e.containerID, m[e.containerID]) in all;
    }
  }

  lemma {:induction false} CoverStep(
      s: Option<ServiceState>, r: ServiceRun, window: int, t: Option<ServiceState>, log: seq<ExitEvent>, bound: int)
    requires ServiceStep(s, r, window, t) && DistinctIDs(EventsOf(s))
    requires Covers(EventsOf(s), log, bound) && r.now - window <= bound
    requires LaterExits(log + Reported(r))
    ensures DistinctIDs(EventsOf(t))
    ensures Covers(EventsOf(t), log + Reported(r), bound)
  {
    if r.dockerOK && r.cts != [] {
      var prev, now := EventsOf(s), EventsOf(t);
      assert Enumerates(now, Merged(prev, r.cts, r.now - window));
      MergeCovers(prev, log, r.cts, r.now - window, now, bound);
    } else {
      assert EventsOf(t) == EventsOf(s);
      assert log + Reported(r) == log;
    }
  }

  /** Over any runs, clock steps, Docker outages, absences and deletions included, the
      store covers the log from any instant that no run pruned beyond. */
  lemma {:induction false} StoreCovers(
      states: seq<Option<ServiceState>>, runs: seq<ServiceRun>, window: int, bound: int)
    requires Follows(states, runs, window) && LaterExits(CrashLog(runs))
    requires forall i :: 0 <= i < |runs| ==> runs[i].now - window <= bound
    ensures DistinctIDs(EventsOf(states[|runs|]))
    ensures Covers(EventsOf(states[|runs|]), CrashLog(runs), bound)
  {
    if runs != [] {
      var n := |runs| - 1;
      var p, r := runs[..n], runs[n];
      SplitLater(CrashLog(p), Reported(r));
      StoreCovers(states[..n + 1], p, window, bound);
      assert states[..n + 1][n] == states[n];
      CoverStep(states[n], r, window, states[n + 1], CrashLog(p), bound);
    }
  }

  /** Comparing whole seconds is comparing with the start of the cutoff's second. */
  lemma {:induction false} WholeSeconds(at: int, cutoff: int)
    ensures Unix(at) >= Unix(cutoff) <==> at >= SecondStart(cutoff)
  {
    var a, c := at / SECOND, cutoff / SECOND;
    assert a * SECOND <= at < a * SECOND + SECOND;
    if a < c {
      assert (a + 1) * SECOND <= c * SECOND;
    } else {
      assert c * SECOND <= a * SECOND;
    }
  }

  lemma {:induction false} WindowOfCover(events: seq<ExitEvent>, log: seq<ExitEvent>, cutoff: int)
    requires Covers(events, log, SecondStart(cutoff))
    ensures InWindow(events, Unix(cutoff)) == InWindow(log, Unix(cutoff))
  {
    var u := Unix(cutoff);
    forall id | id in InWindow(log, u)
      ensures id in InWindow(events, u)
    {
      var e :| e in log && Unix(e.at) >= u && e.containerID == id;
      WholeSeconds(e.at, cutoff);
      assert CoveredBy(events, e);
      var f :| f in events && f.containerID == e.containerID && f.at >= e.at;
      WholeSeconds(f.at, cutoff);
    }
  }

  lemma {:induction false} InOrderOneByOne(log: seq<ExitEvent>)
    requires ReportedInOrder(log)
    ensures LaterExits(log)
  {
    if log != [] {
      var n := |log| - 1;
      InOrderOneByOne(log[..n]);
      forall e | e in log[..n] && e.containerID == log[n].containerID
        ensures e.at <= log[n].at
      {
        var i :| 0 <= i < n && log[i] == e;
      }
    }
  }

  lemma {:induction false} EarlierLog(runs: seq<ServiceRun>)
    requires runs != [] && ReportedInOrder(CrashLog(runs))
    ensures LaterExits(CrashLog(runs[..|runs| - 1]))
  {
    InOrderOneByOne(CrashLog(runs));
    SplitLater(CrashLog(runs[..|runs| - 1]), Reported(runs[|runs| - 1]));
  }

  /** The store that some runs left answers for their log. */
  lemma {:induction false} StoreWindow(
      states: seq<Option<ServiceState>>, runs: seq<ServiceRun>, window: int, cutoff: int)
    requires Follows(states, runs, window) && LaterExits(CrashLog(runs))
    requires forall i :: 0 <= i < |runs| ==> runs[i].now - window <= SecondStart(cutoff)
    ensures InWindow(EventsOf(states[|runs|]), Unix(cutoff)) == InWindow(CrashLog(runs), Unix(cutoff))
  {
    StoreCovers(states, runs, window, SecondStart(cutoff));
    WindowOfCover(EventsOf(states[|runs|]), CrashLog(runs), cutoff);
  }

  /** The crash count of the last run, taken from the pruned, id-overwriting store its
      predecessors left and the corpses in sight, counts exactly the distinct containers
      of the whole crash log whose exit falls in the window. */
  ghost predicate CountsWholeLog(states: seq<Option<ServiceState>>, runs: seq<ServiceRun>, window: int)
    requires |states| == |runs| > 0
  {
    var cur := runs[|runs| - 1];
    var u := Unix(cur.now - window);
    InWindow(EventsOf(states[|runs| - 1]), u) + InWindow(CrashRecords(cur.cts), u) == InWindow(CrashLog(runs), u)
  }

  lemma {:induction false} StoreCountsWholeLog(states: seq<Option<ServiceState>>, runs: seq<ServiceRun>, window: int)
    requires runs != [] && runs[|runs| - 1].dockerOK
    requires Follows(states, runs[..|runs| - 1], window)
    requires CutoffsClear(runs, window) && ReportedInOrder(CrashLog(runs))
    ensures CountsWholeLog(states, runs, window)
  {
    var before, cur := runs[..|runs| - 1], runs[|runs| - 1];
    EarlierLog(runs);
    assert forall i :: 0 <= i < |before| ==> before[i].now - window <= SecondStart(cur.now - window);
    StoreWindow(states, before, window, cur.now - window);
    WindowConcat(CrashLog(before), CrashRecords(cur.cts), Unix(cur.now - window));
  }

  /** Runs at least a second apart are always clear. */
  lemma {:induction false} SecondApartIsClear(runs: seq<ServiceRun>, window: int)
    requires forall i, j :: 0 <= i < j < |runs| ==> runs[i].now + SECOND <= runs[j].now
    ensures CutoffsClear(runs, window)
  {
    forall i | 0 <= i < |runs| - 1
      ensures runs[i].now - window <= SecondStart(runs[|runs| - 1].now - window)
    {
      assert runs[i].now + SECOND <= runs[|runs| - 1].now;
    }
  }

  // ---- and only then ----

  /** The possible pasts of a service at given clock readings. */
  ghost predicate Past(states: seq<Option<ServiceState>>, runs: seq<ServiceRun>, clocks: seq<int>, window: int) {
    && |runs| == |clocks| > 0 && runs[|runs| - 1].dockerOK
    && (forall i :: 0 <= i < |runs| ==> runs[i].now == clocks[i])
    && Follows(states, runs[..|runs| - 1], window) && ReportedInOrder(CrashLog(runs))
  }

  /** Run i shows one crashed container, every other run none. */
  function OneCrash(clocks: seq<int>, i: nat, c: Container): seq<ServiceRun> {
    seq(|clocks|, k requires 0 <= k < |clocks| => ServiceRun(clocks[k], true, if k == i then [c] else [], k, ""))
  }

  function OneCrashStates(n: nat, i: nat, c: Container): seq<Option<ServiceState>> {
    seq(n, k => if k == i + 1 then Some(ServiceState(c.restartCount, MaxOOMKill([c]), [], i, "")) else None)
  }

  lemma {:induction false} OneRecord(c: Container, cutoff: int)
    requires c.CrashExit()
    ensures var e := ExitEvent(c.id, c.finishedAt);
            && CrashRecords([c]) == [e]
            && Since([e], cutoff) == if e.at >= cutoff then [e] else []
  {
    assert [c][..0] == [];
    var e := ExitEvent(c.id, c.finishedAt);
    assert [e][..0] == [];
  }

  lemma {:induction false} ContinuesSnoc(states: seq<Option<ServiceState>>, runs: seq<ServiceRun>, window: int)
    requires runs != [] && |states| == |runs| + 1
    requires var n := |runs| - 1;
             Continues(states[..n + 1], runs[..n], window) && ServiceStep(states[n], runs[n], window, states[n + 1])
    ensures Continues(states, runs, window)
  {
  }

  lemma {:induction false} OneCrashStep(c: Container, r: ServiceRun, window: int, t: ServiceState)
    requires c.CrashExit() && c.finishedAt < r.now - window && r.dockerOK && r.cts == [c]
    requires t == ServiceState(c.restartCount, MaxOOMKill([c]), [], r.runID, r.bootID)
    ensures ServiceStep(None, r, window, Some(t))
  {
    OneRecord(c, r.now - window);
    assert [c][..0] == [];
    assert MaxInspected([c]) == Some(c.restartCount);
    assert Since([], r.now - window) + [] == [];
    assert Merged([], [c], r.now - window) == map[];
  }

  /** A crash already older than the cutoff of the run that shows it is not stored. */
  lemma {:induction false} OneCrashFollows(clocks: seq<int>, i: nat, c: Container, window: int, m: nat)
    requires i < |clocks| && m < |clocks| && c.CrashExit() && c.finishedAt < clocks[i] - window
    ensures Continues(OneCrashStates(|clocks|, i, c)[..m + 1], OneCrash(clocks, i, c)[..m], window)
  {
    if m > 0 {
      var n := m - 1;
      OneCrashFollows(clocks, i, c, window, n);
      var runs, states := OneCrash(clocks, i, c)[..m], OneCrashStates(|clocks|, i, c)[..m + 1];
      assert runs[..n] == OneCrash(clocks, i, c)[..n];
      assert states[..n + 1] == OneCrashStates(|clocks|, i, c)[..n + 1];
      assert ServiceStep(states[n], runs[n], window, states[n + 1]) by {
        if n == i {
          OneCrashStep(c, runs[n], window, states[m].value);
        }
      }
      ContinuesSnoc(states, runs, window);
    }
  }

  lemma {:induction false} OneCrashLog(clocks: seq<int>, i: nat, c: Container, m: nat)
    requires i < |clocks| && m <= |clocks| && c.CrashExit()
    ensures CrashLog(OneCrash(clocks, i, c)[..m]) == if i < m then [ExitEvent(c.id, c.finishedAt)] else []
  {
    if m > 0 {
      var n, runs := m - 1, OneCrash(clocks, i, c);
      OneCrashLog(clocks, i, c, n);
      assert runs[..m][..n] == runs[..n];
      assert CrashLog(runs[..m]) == CrashLog(runs[..n]) + Reported(runs[n]);
      if n == i {
        OneRecord(c, 0);
      }
    }
  }

  lemma {:induction false} EmptyStoreMisses(
      states: seq<Option<ServiceState>>, runs: seq<ServiceRun>, window: int, e: ExitEvent)
    requires |states| == |runs| > 0 && EventsOf(states[|runs| - 1]) == [] && runs[|runs| - 1].cts == []
    requires CrashLog(runs) == [e] && e.at >= SecondStart(runs[|runs| - 1].now - window)
    ensures !CountsWholeLog(states, runs, window)
  {
    var cutoff := runs[|runs| - 1].now - window;
    WholeSeconds(e.at, cutoff);
    WindowOfOne(e, Unix(cutoff));
    assert e.containerID !in InWindow([], Unix(cutoff));
  }

  lemma {:induction false} OneCrashMissed(
      states: seq<Option<ServiceState>>, runs: seq<ServiceRun>, clocks: seq<int>, window: int, e: ExitEvent)
    requires |states| == |runs| == |clocks| > 0
    requires runs[|runs| - 1].dockerOK && runs[|runs| - 1].cts == [] && EventsOf(states[|runs| - 1]) == []
    requires forall i :: 0 <= i < |runs| ==> runs[i].now == clocks[i]
    requires Continues(states, runs[..|runs| - 1], window) && states[0].None? && CrashLog(runs) == [e]
    requires e.at >= SecondStart(clocks[|runs| - 1] - window)
    ensures Past(states, runs, clocks, window) && !CountsWholeLog(states, runs, window)
  {
    EmptyStoreMisses(states, runs, window, e);
  }

  lemma {:induction false} OneCrashHistory(clocks: seq<int>, i: nat, c: Container, window: int)
    requires i < |clocks| - 1 && c.CrashExit() && c.finishedAt < clocks[i] - window
    ensures CrashLog(OneCrash(clocks, i, c)) == [ExitEvent(c.id, c.finishedAt)]
    ensures Continues(OneCrashStates(|clocks|, i, c), OneCrash(clocks, i, c)[..|clocks| - 1], window)
  {
    OneCrashLog(clocks, i, c, |clocks|);
    assert OneCrash(clocks, i, c)[..|clocks|] == OneCrash(clocks, i, c);
    OneCrashFollows(clocks, i, c, window, |clocks| - 1);
    var states := OneCrashStates(|clocks|, i, c);
    assert states[..|clocks| - 1 + 1] == states;
  }

  lemma {:induction false} OneCrashShape(clocks: seq<int>, i: nat, c: Container)
    requires i < |clocks| - 1
    ensures var runs, states, n := OneCrash(clocks, i, c), OneCrashStates(|clocks|, i, c), |clocks| - 1;
            && |states| == |runs| == n + 1
            && runs[n].dockerOK && runs[n].cts == [] && EventsOf(states[n]) == [] && states[0].None?
            && forall k :: 0 <= k <= n ==> runs[k].now == clocks[k]
  {
  }

  /** A run that pruned into the second in which the last window begins may have lost a
      crash that the last run should count. */
  lemma {:induction false} UnclearCutoffMisses(clocks: seq<int>, i: nat, c: Container, window: int)
    returns (states: seq<Option<ServiceState>>, runs: seq<ServiceRun>)
    requires i < |clocks| - 1 && c.CrashExit() && c.finishedAt < clocks[i] - window
    requires c.finishedAt >= SecondStart(clocks[|clocks| - 1] - window)
    ensures Past(states, runs, clocks, window) && !CountsWholeLog(states, runs, window)
  {
    states, runs := OneCrashStates(|clocks|, i, c), OneCrash(clocks, i, c);
    OneCrashShape(clocks, i, c);
    OneCrashHistory(clocks, i, c, window);
    OneCrashMissed(states, runs, clocks, window, ExitEvent(c.id, c.finishedAt));
  }

  function Crashed(at: int): Container {
    Container("c", "c", "", map[], "exited", 0, false, 1, ZERO_TIME, at, 0, true, Cgroup(UNKNOWN, 0, 0))
  }

  predicate ClocksClear(clocks: seq<int>, window: int) {
    forall i :: 0 <= i < |clocks| - 1 ==> clocks[i] - window <= SecondStart(clocks[|clocks| - 1] - window)
  }

  lemma {:induction false} ClearClocksCount(
      states: seq<Option<ServiceState>>, runs: seq<ServiceRun>, clocks: seq<int>, window: int)
    requires Past(states, runs, clocks, window) && ClocksClear(clocks, window)
    ensures CountsWholeLog(states, runs, window)
  {
    assert CutoffsClear(runs, window);
    StoreCountsWholeLog(states, runs, window);
  }

  lemma {:induction false} UnclearClocksMiss(clocks: seq<int>, window: int)
    returns (states: seq<Option<ServiceState>>, runs: seq<ServiceRun>)
    requires |clocks| > 0 && forall i :: 0 <= i < |clocks| ==> clocks[i] - window > ZERO_TIME + 1
    requires !ClocksClear(clocks, window)
    ensures Past(states, runs, clocks, window) && !CountsWholeLog(states, runs, window)
  {
    var i :| 0 <= i < |clocks| - 1 && clocks[i] - window > SecondStart(clocks[|clocks| - 1] - window);
    var c := Crashed(clocks[i] - window - 1);
    states, runs := UnclearCutoffMisses(clocks, i, c, window);
  }

  /** The bounded store answers as the unbounded log for every past, if and only if no
      earlier run's cutoff lies beyond the start of the second in which the last run's
      window begins. Clocks may otherwise step as they like. */
  lemma {:induction false} CountsExactlyWhenClear(clocks: seq<int>, window: int)
    requires |clocks| > 0 && forall i :: 0 <= i < |clocks| ==> clocks[i] - window > ZERO_TIME + 1
    ensures (forall states, runs :: Past(states, runs, clocks, window) ==> CountsWholeLog(states, runs, window))
            <==> ClocksClear(clocks, window)
  {
    if ClocksClear(clocks, window) {
      forall states, runs | Past(states, runs, clocks, window)
        ensures CountsWholeLog(states, runs, window)
      {
        ClearClocksCount(states, runs, clocks, window);
      }
    } else {
      var states, runs := UnclearClocksMiss(clocks, window);
    }
  }

  // ---- restart deltas ----

  function MaxRestarts(cts: seq<Container>): nat {
    if cts == [] then 0
    else
      var before := MaxRestarts(cts[..|cts| - 1]);
      var n := cts[|cts| - 1].restartCount;
      if n > before then n else before
  }

  /** In-place restarts since the stored baseline; none without a baseline of this boot. */
  function RestartDelta(hadBaseline: bool, bootChanged: bool, prev: Option<ServiceState>, r: ServiceRun): nat {
    if hadBaseline && !bootChanged && prev.Some? && prev.value.bootID == r.bootID
       && MaxRestarts(r.cts) >= prev.value.lastRestartCount
    then MaxRestarts(r.cts) - prev.value.lastRestartCount
    else 0
  }

  /** The greatest count, whatever the order of the containers. */
  lemma {:induction false} MaxRestartsExact(cts: seq<Container>)
    ensures forall c :: c in cts ==> c.restartCount <= MaxRestarts(cts)
    ensures MaxRestarts(cts) == 0 || exists c :: c in cts && c.restartCount == MaxRestarts(cts)
  {
    if cts != [] {
      var n := |cts| - 1;
      MaxRestartsExact(cts[..n]);
      assert cts == cts[..n] + [cts[n]];
    }
  }

  /** There is a baseline of this boot to compare with. */
  predicate HasBaseline(hadBaseline: bool, bootChanged: bool, prev: Option<ServiceState>, bootID: string) {
    hadBaseline && !bootChanged && prev.Some? && prev.value.bootID == bootID
  }

  /** The restart delta, container by container: with a baseline of this boot no container
      is further above it, and one is as far unless none is above; else nothing. */
  lemma {:induction false} DeltaExactly(
      hadBaseline: bool, bootChanged: bool, prev: Option<ServiceState>, r: ServiceRun)
    ensures var delta := RestartDelta(hadBaseline, bootChanged, prev, r);
            if HasBaseline(hadBaseline, bootChanged, prev, r.bootID) then
              && (forall c :: c in r.cts ==> c.restartCount - prev.value.lastRestartCount <= delta)
              && (delta == 0 || exists c :: c in r.cts && c.restartCount - prev.value.lastRestartCount == delta)
            else delta == 0
  {
    MaxRestartsExact(r.cts);
  }

  predicate Inspected(r: ServiceRun) {
    r.dockerOK && r.cts != [] && r.cts[0].inspected
  }

  /** A run of a one-container service: present whenever Docker answers, and reporting
      no restarts when it was not inspected. */
  predicate OneContainer(r: ServiceRun, bootID: string) {
    && r.bootID == bootID
    && (r.dockerOK ==> |r.cts| == 1 && (!r.cts[0].inspected ==> r.cts[0].restartCount == 0))
  }

  function StartCount(s: Option<ServiceState>): nat {
    if s.Some? then s.value.lastRestartCount else 0
  }

  /** The restart count of the last inspected run, or the one given. */
  function LastInspected(runs: seq<ServiceRun>, start: nat): nat {
    if runs == [] then start
    else
      var r := runs[|runs| - 1];
      if Inspected(r) then r.cts[0].restartCount else LastInspected(runs[..|runs| - 1], start)
  }

  function LastRunID(runs: seq<ServiceRun>, start: int): int {
    if runs == [] then start else runs[|runs| - 1].runID
  }

  /** Any runs of a one-container service during one boot, from a record not newer than
      run `from` or from none: run ids grow, and the restart count never falls. Docker
      may fail and inspects may fail at any of them. */
  predicate Stretch(states: seq<Option<ServiceState>>, runs: seq<ServiceRun>, window: int, bootID: string, from: int)
    decreases |runs|
  {
    && |states| == |runs| + 1
    && if runs == [] then
         states[0].Some? ==> states[0].value.bootID == bootID && states[0].value.lastSeenRun <= from
       else
         var n := |runs| - 1;
         && Stretch(states[..n + 1], runs[..n], window, bootID, from)
         && ServiceStep(states[n], runs[n], window, states[n + 1])
         && OneContainer(runs[n], bootID)
         && LastRunID(runs[..n], from) < runs[n].runID
         && (Inspected(runs[n]) ==> runs[n].cts[0].restartCount >= LastInspected(runs[..n], StartCount(states[0])))
  }

  /** The record still holds the last inspected count: since then no outage met a record
      without crash events, for then the prune deletes it. */
  predicate Kept(states: seq<Option<ServiceState>>, runs: seq<ServiceRun>)
    requires |states| == |runs| + 1
  {
    if runs == [] then states[0].Some?
    else
      var n := |runs| - 1;
      || Inspected(runs[n])
      || ((runs[n].dockerOK || EventsOf(states[n]) != []) && Kept(states[..n + 1], runs[..n]))
  }

  /** The last of some runs reached Docker. */
  predicate SawService(runs: seq<ServiceRun>) { runs != [] && runs[|runs| - 1].dockerOK }

  /** A record that was not kept is gone, or was re-created with a count of zero. */
  predicate BaselineIs(s: Option<ServiceState>, kept: bool, last: nat, saw: bool, bootID: string, runID: int) {
    && (s.Some? ==> s.value.bootID == bootID && s.value.lastSeenRun <= runID)
    && if kept then s.Some? && s.value.lastRestartCount == last
       else EventsOf(s) == [] && s.Some? == saw && (s.Some? ==> s.value.lastRestartCount == 0)
  }

  lemma {:induction false} NoCrashNoEvents(c: Container, cutoff: int, events: seq<ExitEvent>)
    requires !c.CrashExit() && Enumerates(events, Merged([], [c], cutoff))
    ensures events == []
  {
    assert [c][..0] == [] && CrashRecords([c]) == [];
    assert Since([], cutoff) + Since([], cutoff) == [];
    assert Merged([], [c], cutoff) == map[];
  }

  lemma {:induction false} OnlyContainer(c: Container)
    ensures MaxRestarts([c]) == c.restartCount
    ensures MaxInspected([c]) == if c.inspected then Some(c.restartCount) else None
  {
    assert [c][..0] == [];
  }

  lemma {:induction false} BaselineStep(s: Option<ServiceState>, r: ServiceRun, window: int, t: Option<ServiceState>,
      kept: bool, last: nat, saw: bool, bootID: string, runID: int)
    requires BaselineIs(s, kept, last, saw, bootID, runID) && ServiceStep(s, r, window, t)
    requires OneContainer(r, bootID) && runID < r.runID
    ensures BaselineIs(t, Inspected(r) || ((r.dockerOK || EventsOf(s) != []) && kept),
                       if Inspected(r) then r.cts[0].restartCount else last, r.dockerOK, bootID, r.runID)
  {
    if r.dockerOK {
      var c := r.cts[0];
      assert r.cts == [c];
      OnlyContainer(c);
      if !c.inspected && !kept {
        NoCrashNoEvents(c, r.now - window, t.value.exitEvents);
      }
    }
  }

  /** What the stored record is, after any such runs. */
  lemma {:induction false} BaselineHolds(
      states: seq<Option<ServiceState>>, runs: seq<ServiceRun>, window: int, bootID: string, from: int)
    requires Stretch(states, runs, window, bootID, from)
    ensures BaselineIs(states[|runs|], Kept(states, runs), LastInspected(runs, StartCount(states[0])),
                       SawService(runs), bootID, LastRunID(runs, from))
  {
    if runs != [] {
      var n := |runs| - 1;
      BaselineHolds(states[..n + 1], runs[..n], window, bootID, from);
      var saw := SawService(runs[..n]);
      BaselineStep(states[n], runs[n], window, states[n + 1], Kept(states[..n + 1], runs[..n]),
                   LastInspected(runs[..n], StartCount(states[0])), saw, bootID, LastRunID(runs[..n], from));
    }
  }

  /** What the next inspected run reports beyond the restarts since the last inspected
      one: nothing if the record was kept; all earlier restarts again if it was
      re-created by a run that could not inspect; and if it is gone, the new ones are
      missing. */
  function Excess(kept: bool, saw: bool, last: nat, count: int): int {
    if kept then 0 else if saw then last else last - count
  }

  lemma {:induction false} DeltaFromBaseline(
      s: Option<ServiceState>, kept: bool, last: nat, saw: bool, bootID: string, runID: int, next: ServiceRun)
    requires BaselineIs(s, kept, last, saw, bootID, runID)
    requires OneContainer(next, bootID) && next.dockerOK
    requires Inspected(next) ==> next.cts[0].restartCount >= last
    ensures var count := if next.cts[0].inspected then next.cts[0].restartCount else 0;
            RestartDelta(true, false, s, next)
            == if Inspected(next) then count - last + Excess(kept, saw, last, count) else 0
  {
    assert next.cts == [next.cts[0]];
    OnlyContainer(next.cts[0]);
  }

  /** The next inspected run reports exactly the restarts since the last inspected one,
      if and only if the record was kept, or it was re-created and there were no earlier
      restarts, or it is gone and there were no new ones. */
  predicate ReportsTruly(states: seq<Option<ServiceState>>, runs: seq<ServiceRun>, count: int)
    requires |states| == |runs| + 1
  {
    || Kept(states, runs)
    || (if SawService(runs) then LastInspected(runs, StartCount(states[0])) == 0
        else count == LastInspected(runs, StartCount(states[0])))
  }

  lemma {:induction false} DeltaIsTrueExactly(states: seq<Option<ServiceState>>, runs: seq<ServiceRun>, window: int,
      bootID: string, from: int, next: ServiceRun)
    requires Stretch(states, runs, window, bootID, from)
    requires OneContainer(next, bootID) && Inspected(next)
    requires next.cts[0].restartCount >= LastInspected(runs, StartCount(states[0]))
    ensures RestartDelta(true, false, states[|runs|], next)
            == next.cts[0].restartCount - LastInspected(runs, StartCount(states[0]))
            <==> ReportsTruly(states, runs, next.cts[0].restartCount)
  {
    BaselineHolds(states, runs, window, bootID, from);
    DeltaFromBaseline(states[|runs|], Kept(states, runs), LastInspected(runs, StartCount(states[0])),
                      SawService(runs), bootID, LastRunID(runs, from), next);
  }

  function SumDeltas(states: seq<Option<ServiceState>>, runs: seq<ServiceRun>): nat
    requires |states| == |runs| + 1
  {
    if runs == [] then 0
    else
      var n := |runs| - 1;
      SumDeltas(states[..n + 1], runs[..n])
      + if runs[n].dockerOK then RestartDelta(true, false, states[n], runs[n]) else 0
  }

  /** The excess of every inspected run, added up. */
  function Drift(states: seq<Option<ServiceState>>, runs: seq<ServiceRun>): int
    requires |states| == |runs| + 1
  {
    if runs == [] then 0
    else
      var n := |runs| - 1;
      var p := runs[..n];
      Drift(states[..n + 1], p)
      + if !Inspected(runs[n]) then 0
        else Excess(Kept(states[..n + 1], p), SawService(p), LastInspected(p, StartCount(states[0])),
                    runs[n].cts[0].restartCount)
  }

  /** Every inspected run reported truly. */
  predicate AllTrue(states: seq<Option<ServiceState>>, runs: seq<ServiceRun>)
    requires |states| == |runs| + 1
  {
    runs == [] ||
    var n := |runs| - 1;
    && AllTrue(states[..n + 1], runs[..n])
    && (Inspected(runs[n]) ==> ReportsTruly(states[..n + 1], runs[..n], runs[n].cts[0].restartCount))
  }

  /** The deltas reported so far add up to the restarts so far. */
  predicate Telescopes(states: seq<Option<ServiceState>>, runs: seq<ServiceRun>)
    requires |states| == |runs| + 1
  {
    SumDeltas(states, runs) == LastInspected(runs, StartCount(states[0])) - StartCount(states[0])
  }

  /** The books of restart counting, outages and failed inspects included: the deltas
      add up to the last inspected count minus the baseline at the start, plus the
      drift, which only runs after a lost record contribute to. */
  lemma {:induction false} DeltasBalance(
      states: seq<Option<ServiceState>>, runs: seq<ServiceRun>, window: int, bootID: string, from: int)
    requires Stretch(states, runs, window, bootID, from)
    ensures SumDeltas(states, runs)
            == LastInspected(runs, StartCount(states[0])) - StartCount(states[0]) + Drift(states, runs)
  {
    if runs != [] {
      var n := |runs| - 1;
      var p := runs[..n];
      DeltasBalance(states[..n + 1], p, window, bootID, from);
      BaselineHolds(states[..n + 1], p, window, bootID, from);
      if runs[n].dockerOK {
        DeltaFromBaseline(states[n], Kept(states[..n + 1], p), LastInspected(p, StartCount(states[0])),
                          SawService(p), bootID, LastRunID(p, from), runs[n]);
      }
    }
  }

  /** The deltas telescope after every run of a stretch, if and only if every inspected
      run of it reported truly. */
  lemma {:induction false} DeltasTelescope(
      states: seq<Option<ServiceState>>, runs: seq<ServiceRun>, window: int, bootID: string, from: int)
    requires Stretch(states, runs, window, bootID, from)
    ensures (forall m :: 0 <= m <= |runs| ==> Telescopes(states[..m + 1], runs[..m])) <==> AllTrue(states, runs)
  {
    assert states[..|runs| + 1] == states && runs[..|runs|] == runs;
    if runs != [] {
      var n := |runs| - 1;
      var q, p := states[..n + 1], runs[..n];
      DeltasTelescope(q, p, window, bootID, from);
      forall m | 0 <= m <= n
        ensures q[..m + 1] == states[..m + 1] && p[..m] == runs[..m]
      {
      }
      DeltasBalance(q, p, window, bootID, from);
      DeltasBalance(states, runs, window, bootID, from);
    }
  }

  lemma {:induction false} NoDrift(states: seq<Option<ServiceState>>, runs: seq<ServiceRun>)
    requires |states| == |runs| + 1 && AllTrue(states, runs)
    ensures Drift(states, runs) == 0
  {
    if runs != [] {
      NoDrift(states[..|runs|], runs[..|runs| - 1]);
    }
  }

  /** Where every outage meets a remembered crash, nothing is ever lost. */
  lemma {:induction false} RememberedCrashKeeps(
      states: seq<Option<ServiceState>>, runs: seq<ServiceRun>, window: int, bootID: string, from: int)
    requires Stretch(states, runs, window, bootID, from) && states[0].Some?
    requires forall i :: 0 <= i < |runs| && !runs[i].dockerOK ==> EventsOf(states[i]) != []
    ensures Kept(states, runs) && AllTrue(states, runs) && Telescopes(states, runs)
  {
    if runs != [] {
      RememberedCrashKeeps(states[..|runs|], runs[..|runs| - 1], window, bootID, from);
    }
    DeltasBalance(states, runs, window, bootID, from);
    NoDrift(states, runs);
  }

  lemma {:induction false} RunsAfter(
      states: seq<Option<ServiceState>>, runs: seq<ServiceRun>, window: int, bootID: string, from: int)
    requires Stretch(states, runs, window, bootID, from)
    ensures Continues(states, runs, window)
    ensures LastRunID(runs, from) >= from && forall i :: 0 <= i < |runs| ==> runs[i].runID > from
  {
    if runs != [] {
      RunsAfter(states[..|runs|], runs[..|runs| - 1], window, bootID, from);
    }
  }

  /** What a Docker outage leaves: the record, or nothing at all when it remembers no
      crash, because the prune runs on outages too. */
  lemma {:induction false} OutageKeeps(states: seq<Option<ServiceState>>, runs: seq<ServiceRun>, window: int)
    requires Continues(states, runs, window) && runs != [] && states[0].Some?
    requires forall i :: 0 <= i < |runs| ==> !runs[i].dockerOK && runs[i].runID > states[0].value.lastSeenRun
    ensures states[|runs|] == if states[0].value.exitEvents == [] then None else states[0]
  {
    var n := |runs| - 1;
    assert ServiceStep(states[n], runs[n], window, states[n + 1]);
    if n > 0 {
      OutageKeeps(states[..n + 1], runs[..n], window);
    }
  }

  /** An outage of k runs, then runs that reach Docker but cannot inspect. */
  predicate OutageThenBlind(runs: seq<ServiceRun>, k: nat) {
    && 1 <= k <= |runs|
    && forall i :: 0 <= i < |runs| ==> runs[i].dockerOK == (i >= k) && !Inspected(runs[i])
  }

  lemma {:induction false} KeptAcross(states: seq<Option<ServiceState>>, runs: seq<ServiceRun>, window: int,
      bootID: string, from: int, k: nat)
    requires Stretch(states, runs, window, bootID, from) && OutageThenBlind(runs, k)
    requires states[0].Some? && states[0].value.lastSeenRun <= from
    ensures Kept(states, runs) <==> states[0].value.exitEvents != []
    ensures LastInspected(runs, StartCount(states[0])) == StartCount(states[0])
  {
    var n := |runs| - 1;
    var q, p := states[..n + 1], runs[..n];
    if n > 0 {
      KeptAcross(q, p, window, bootID, from, if n < k then n else k);
      if n < k {
        RunsAfter(q, p, window, bootID, from);
        OutageKeeps(q, p, window);
      }
    } else {
      assert p == [] && q == [states[0]];
    }
  }

  /** Restarts across an outage, exactly: after an outage and any number of runs that
      could not inspect, the next inspected run reports the restarts since the last
      inspected one if and only if the record remembered a crash when the outage began,
      or it was re-created over a count of zero, or nothing re-created it and there were
      no restarts to report. */
  lemma {:induction false} DeltaAcrossOutage(states: seq<Option<ServiceState>>, runs: seq<ServiceRun>, window: int,
      bootID: string, from: int, k: nat, next: ServiceRun)
    requires Stretch(states, runs, window, bootID, from) && OutageThenBlind(runs, k)
    requires states[0].Some? && states[0].value.lastSeenRun <= from
    requires OneContainer(next, bootID) && Inspected(next)
    requires next.cts[0].restartCount >= states[0].value.lastRestartCount
    ensures var base, count := states[0].value, next.cts[0].restartCount;
            RestartDelta(true, false, states[|runs|], next) == count - base.lastRestartCount
            <==>
            || base.exitEvents != []
            || (k < |runs| && base.lastRestartCount == 0)
            || (k == |runs| && count == base.lastRestartCount)
  {
    KeptAcross(states, runs, window, bootID, from, k);
    DeltaIsTrueExactly(states, runs, window, bootID, from, next);
  }

  /** When it does not: a record deleted and then re-created by any number of runs that
      could not inspect makes the next inspected run report the container's whole life
      as fresh restarts. */
  lemma {:induction false} OutageFabricatesDelta(states: seq<Option<ServiceState>>, runs: seq<ServiceRun>,
      window: int, bootID: string, from: int, k: nat, next: ServiceRun)
    requires Stretch(states, runs, window, bootID, from) && OutageThenBlind(runs, k) && k < |runs|
    requires states[0].Some? && states[0].value.lastSeenRun <= from && states[0].value.exitEvents == []
    requires OneContainer(next, bootID) && Inspected(next)
    requires next.cts[0].restartCount >= states[0].value.lastRestartCount
    ensures RestartDelta(true, false, states[|runs|], next) == next.cts[0].restartCount
  {
    KeptAcross(states, runs, window, bootID, from, k);
    BaselineHolds(states, runs, window, bootID, from);
    DeltaFromBaseline(states[|runs|], false, states[0].value.lastRestartCount, true, bootID,
                      LastRunID(runs, from), next);
  }
}

/** The load / evaluate / save / deliver protocol with a crash possible between any
    two steps. The state file is an atomic cell; delivery appends to a log. */
module Protocol {
  import opened Types
  import opened Route
  import opened KeyMachine
  import opened AlertMap
  import opened Degraded
  import opened Floors
  import opened Delivery
  import Services
  import Disk
  import Baselines
  import Memories

  /** The state file: the run counter, the alert records, and what is remembered of the
      samples. */
  datatype Durable = Durable(runCount: int, alerts: Alerts, memory: Baselines.Memory)

  /** Where the running process is; nothing here survives a crash. */
  datatype Phase =
    | Idle
    | Loaded(snap: Durable)
    | Evaluated(run: Run, sample: Baselines.Sample, next: Durable, posts: seq<Post>)
    | Saved(unsent: seq<Post>)

  /** All but `disk` and `phase` is history: what was posted, and for the runs whose save
      succeeded their observations, their samples, the memory they left and how much of
      what they decided was posted. */
  datatype Sys = Sys(
    disk: Durable,
    phase: Phase,
    log: seq<Post>,
    committed: seq<Run>,
    samples: seq<Baselines.Sample>,
    memories: seq<Baselines.Memory>,
    posted: seq<nat>)

  const EMPTY := Durable(0, map[], Baselines.NO_MEMORY)

  predicate Init(s: Sys) {
    s == Sys(EMPTY, Idle, [], [], [], [], [])
  }

  predicate LoadStep(s: Sys, t: Sys) {
    s.phase == Idle && t == s.(phase := Loaded(s.disk))
  }

  /** A process that loaded `snap` may come to p. */
  ghost predicate Evaluates(cfg: Config, snap: Durable, p: Phase)
    requires p.Evaluated?
  {
    && p.run.env.runID == p.sample.runID == snap.runCount + 1 && p.run.env.now == p.sample.now
    && ValidRun(cfg, snap.alerts, p.run)
    && Baselines.Remembers(snap.memory, p.sample, cfg.CrashWindow(), p.next.memory)
    && var r := ExecRun(cfg, snap.alerts, p.run);
    && p.next == Durable(p.run.env.runID, r.alerts, p.next.memory)
    && p.posts == PostsOf(cfg, r.sent)
  }

  ghost predicate EvaluateStep(cfg: Config, s: Sys, t: Sys) {
    && s.phase.Loaded? && t.phase.Evaluated?
    && Evaluates(cfg, s.phase.snap, t.phase)
    && t == s.(phase := t.phase)
  }

  /** The two halves of a run's work make an evaluation. */
  lemma {:induction false} EvaluateInParts(cfg: Config, snap: Durable, run: Run, sample: Baselines.Sample,
      after: Advanced, memory: Baselines.Memory)
    requires run.env.runID == sample.runID == snap.runCount + 1 && run.env.now == sample.now
    requires Executes(cfg, snap.alerts, run, after)
    requires Baselines.Remembers(snap.memory, sample, cfg.CrashWindow(), memory)
    ensures Evaluates(cfg, snap, Evaluated(run, sample, Durable(run.env.runID, after.alerts, memory),
                                           PostsOf(cfg, after.sent)))
  {
  }

  predicate SaveStep(s: Sys, t: Sys) {
    && s.phase.Evaluated?
    && t == Sys(s.phase.next, Saved(s.phase.posts), s.log, s.committed + [s.phase.run],
                s.samples + [s.phase.sample], s.memories + [s.phase.next.memory], s.posted + [0])
  }

  predicate PostStep(s: Sys, t: Sys) {
    && s.phase.Saved? && s.phase.unsent != [] && s.posted != []
    && var n := |s.posted| - 1;
    && t == s.(phase := Saved(s.phase.unsent[1..]), log := s.log + [s.phase.unsent[0]],
               posted := s.posted[n := s.posted[n] + 1])
  }

  /** The process ends: a crash, a dry run, a failed save, or a normal exit. */
  predicate EndStep(s: Sys, t: Sys) {
    t == s.(phase := Idle)
  }

  ghost predicate Next(cfg: Config, s: Sys, t: Sys) {
    LoadStep(s, t) || EvaluateStep(cfg, s, t) || SaveStep(s, t) || PostStep(s, t) || EndStep(s, t)
  }

  ghost predicate Behaviour(cfg: Config, trace: seq<Sys>) {
    && trace != [] && Init(trace[0])
    && forall i :: 0 <= i < |trace| - 1 ==> Next(cfg, trace[i], trace[i + 1])
  }

  // ---- what the history says ----

  lemma {:induction false} ValidPrefix(cfg: Config, runs: seq<Run>, n: nat)
    requires ValidRuns(cfg, runs) && n <= |runs|
    ensures ValidRuns(cfg, runs[..n])
    ensures n < |runs| ==> ValidRun(cfg, ExecRuns(cfg, runs[..n]).alerts, runs[n])
  {
    if n == |runs| {
      assert runs[..n] == runs;
    } else if n < |runs| - 1 {
      ValidPrefix(cfg, runs[..|runs| - 1], n);
      assert runs[..|runs| - 1][..n] == runs[..n];
    }
  }

  /** The alert map after the first n committed runs. */
  function AlertsAfter(cfg: Config, runs: seq<Run>, n: nat): Alerts
    requires ValidRuns(cfg, runs) && n <= |runs|
  {
    ValidPrefix(cfg, runs, n);
    ExecRuns(cfg, runs[..n]).alerts
  }

  function DecisionsAt(cfg: Config, runs: seq<Run>, n: nat): seq<Decision>
    requires ValidRuns(cfg, runs) && n < |runs|
  {
    ValidPrefix(cfg, runs, n);
    ExecRun(cfg, AlertsAfter(cfg, runs, n), runs[n]).sent
  }

  function PostsAt(cfg: Config, runs: seq<Run>, n: nat): seq<Post>
    requires ValidRuns(cfg, runs) && n < |runs|
  {
    PostsOf(cfg, DecisionsAt(cfg, runs, n))
  }

  lemma {:induction false} PrefixDecisions(cfg: Config, runs: seq<Run>)
    requires ValidRuns(cfg, runs) && runs != []
    ensures var p := runs[..|runs| - 1];
            ValidRuns(cfg, p) && forall i :: 0 <= i < |p| ==> DecisionsAt(cfg, p, i) == DecisionsAt(cfg, runs, i)
  {
    var p := runs[..|runs| - 1];
    forall i | 0 <= i < |p|
      ensures DecisionsAt(cfg, p, i) == DecisionsAt(cfg, runs, i)
    {
      assert p[..i] == runs[..i];
    }
  }

  predicate Progress(cfg: Config, runs: seq<Run>, posted: seq<nat>)
    requires ValidRuns(cfg, runs)
  {
    && |posted| == |runs|
    && forall i :: 0 <= i < |runs| ==> posted[i] <= |PostsAt(cfg, runs, i)|
  }

  lemma {:induction false} PrefixProgress(cfg: Config, runs: seq<Run>, posted: seq<nat>)
    requires ValidRuns(cfg, runs) && Progress(cfg, runs, posted) && runs != []
    ensures ValidRuns(cfg, runs[..|runs| - 1]) && Progress(cfg, runs[..|runs| - 1], posted[..|runs| - 1])
  {
    PrefixDecisions(cfg, runs);
  }

  function Delivered(cfg: Config, runs: seq<Run>, posted: seq<nat>): seq<Post>
    requires ValidRuns(cfg, runs) && Progress(cfg, runs, posted)
    decreases |runs|
  {
    if runs == [] then []
    else
      var n := |runs| - 1;
      PrefixProgress(cfg, runs, posted);
      Delivered(cfg, runs[..n], posted[..n]) + PostsAt(cfg, runs, n)[..posted[n]]
  }

  predicate Numbered(runs: seq<Run>) {
    forall i :: 0 <= i < |runs| ==> runs[i].env.runID == i + 1
  }

  predicate Matched(runs: seq<Run>, samples: seq<Baselines.Sample>) {
    && |samples| == |runs|
    && forall i :: 0 <= i < |runs| ==> samples[i].runID == runs[i].env.runID
  }

  /** The durable cell is what a process that never crashed would have written for the
      committed runs. */
  ghost predicate CrashFree(cfg: Config, s: Sys) {
    && ValidRuns(cfg, s.committed) && Numbered(s.committed) && Matched(s.committed, s.samples)
    && Memories.Recorded(s.samples, s.memories, cfg.CrashWindow())
    && s.disk == Durable(|s.committed|, ExecRuns(cfg, s.committed).alerts, Memories.LastMemory(s.memories))
  }

  /** And the log holds, run by run, a prefix of what each committed run had to post. */
  ghost predicate Consistent(cfg: Config, s: Sys) {
    && CrashFree(cfg, s)
    && Progress(cfg, s.committed, s.posted)
    && s.log == Delivered(cfg, s.committed, s.posted)
  }

  ghost predicate PhaseAgrees(cfg: Config, s: Sys)
    requires Consistent(cfg, s)
  {
    match s.phase
    case Idle => true
    case Loaded(snap) => snap == s.disk
    case Evaluated(_, _, _, _) => Evaluates(cfg, s.disk, s.phase)
    case Saved(unsent) =>
      && s.committed != []
      && var n := |s.committed| - 1;
      && unsent == PostsAt(cfg, s.committed, n)[s.posted[n]..]
  }

  ghost predicate Inv(cfg: Config, s: Sys) {
    Consistent(cfg, s) && PhaseAgrees(cfg, s)
  }

  /** A run just committed has posted nothing. */
  lemma {:induction false} NothingPostedYet(cfg: Config, runs: seq<Run>, posted: seq<nat>, run: Run)
    requires ValidRuns(cfg, runs + [run]) && ValidRuns(cfg, runs) && Progress(cfg, runs, posted)
    ensures Progress(cfg, runs + [run], posted + [0])
    ensures Delivered(cfg, runs + [run], posted + [0]) == Delivered(cfg, runs, posted)
  {
    var n, more, p := |runs|, runs + [run], posted + [0];
    assert more[..n] == runs && p[..n] == posted;
    PrefixDecisions(cfg, more);
    assert Delivered(cfg, runs, posted) + [] == Delivered(cfg, runs, posted);
    assert Delivered(cfg, more, p) == Delivered(cfg, runs, posted) + PostsAt(cfg, more, n)[..0];
  }

  lemma {:induction false} SaveKeepsCrashFree(cfg: Config, s: Sys, t: Sys)
    requires CrashFree(cfg, s) && SaveStep(s, t) && Evaluates(cfg, s.disk, s.phase)
    ensures CrashFree(cfg, t)
    ensures DecisionsAt(cfg, t.committed, |s.committed|) == ExecRun(cfg, s.disk.alerts, s.phase.run).sent
  {
    var n := |s.committed|;
    assert t.committed[..n] == s.committed;
    Memories.RecordOneMore(s.samples, s.memories, cfg.CrashWindow(), s.phase.sample, s.phase.next.memory);
  }

  lemma {:induction false} SaveKeepsInv(cfg: Config, s: Sys, t: Sys)
    requires Inv(cfg, s) && SaveStep(s, t)
    ensures Inv(cfg, t)
  {
    SaveKeepsCrashFree(cfg, s, t);
    NothingPostedYet(cfg, s.committed, s.posted, s.phase.run);
  }

  lemma {:induction false} TakeOneMore(p: seq<Post>, d: seq<Post>, k: nat)
    requires k < |d|
    ensures p + d[..k + 1] == (p + d[..k]) + [d[k]]
  {
  }

  lemma {:induction false} DeliverOneMore(cfg: Config, runs: seq<Run>, posted: seq<nat>)
    requires ValidRuns(cfg, runs) && runs != [] && Progress(cfg, runs, posted)
    requires posted[|runs| - 1] < |PostsAt(cfg, runs, |runs| - 1)|
    ensures var n := |runs| - 1;
            var d := PostsAt(cfg, runs, n);
            var more := posted[n := posted[n] + 1];
            && Progress(cfg, runs, more)
            && Delivered(cfg, runs, more) == Delivered(cfg, runs, posted) + [d[posted[n]]]
  {
    var n := |runs| - 1;
    var d, k := PostsAt(cfg, runs, n), posted[n];
    var more := posted[n := k + 1];
    PrefixProgress(cfg, runs, posted);
    assert more[..n] == posted[..n];
    var p := Delivered(cfg, runs[..n], posted[..n]);
    assert Delivered(cfg, runs, posted) == p + d[..k];
    assert Delivered(cfg, runs, more) == p + d[..k + 1];
    TakeOneMore(p, d, k);
  }

  /** Taking the head off what is left advances the cut by one. */
  lemma {:induction false} DropOne(d: seq<Post>, k: nat, unsent: seq<Post>)
    requires k <= |d| && unsent == d[k..] && unsent != []
    ensures k < |d| && unsent[0] == d[k] && unsent[1..] == d[k + 1..]
  {
  }

  lemma {:induction false} PostKeepsConsistent(cfg: Config, s: Sys, t: Sys)
    requires Consistent(cfg, s) && s.committed != []
    requires var n := |s.committed| - 1;
             && s.posted[n] < |PostsAt(cfg, s.committed, n)|
             && t == s.(phase := t.phase, log := s.log + [PostsAt(cfg, s.committed, n)[s.posted[n]]],
                        posted := s.posted[n := s.posted[n] + 1])
    ensures Consistent(cfg, t)
  {
    DeliverOneMore(cfg, s.committed, s.posted);
  }

  lemma {:induction false} PostKeepsPhase(cfg: Config, s: Sys, t: Sys)
    requires Inv(cfg, s) && PostStep(s, t) && Consistent(cfg, t)
    ensures PhaseAgrees(cfg, t)
  {
    var n := |s.committed| - 1;
    DropOne(PostsAt(cfg, s.committed, n), s.posted[n], s.phase.unsent);
  }

  lemma {:induction false} PostKeepsInv(cfg: Config, s: Sys, t: Sys)
    requires Inv(cfg, s) && PostStep(s, t)
    ensures Inv(cfg, t)
  {
    var n := |s.committed| - 1;
    DropOne(PostsAt(cfg, s.committed, n), s.posted[n], s.phase.unsent);
    PostKeepsConsistent(cfg, s, t);
    PostKeepsPhase(cfg, s, t);
  }

  lemma {:induction false} InvHolds(cfg: Config, trace: seq<Sys>)
    requires Behaviour(cfg, trace)
    ensures Inv(cfg, trace[|trace| - 1])
  {
    if |trace| > 1 {
      var n := |trace| - 2;
      var p := trace[..n + 1];
      assert Behaviour(cfg, p);
      InvHolds(cfg, p);
      var s, t := trace[n], trace[n + 1];
      assert p[|p| - 1] == s && Next(cfg, s, t);
      if SaveStep(s, t) {
        SaveKeepsInv(cfg, s, t);
      } else if PostStep(s, t) {
        PostKeepsInv(cfg, s, t);
      }
    }
  }

  // ---- what may be delivered ----

  /** No run of these brings two observations of the key. */
  predicate KeyOnce(runs: seq<Run>, key: string) {
    forall i :: 0 <= i < |runs| ==> |OfKey(runs[i].obs, key)| <= 1
  }

  /** A run stamps all it decides with its id, and decides at most one thing about any key
      it observes at most once. */
  lemma {:induction false} RunDecisions(cfg: Config, m: Alerts, run: Run, key: string)
    requires ValidRun(cfg, m, run)
    ensures forall d :: d in ExecRun(cfg, m, run).sent ==> d.alert.runID == run.env.runID
    ensures |OfKey(run.obs, key)| <= 1 ==> |DecisionsOf(ExecRun(cfg, m, run).sent, key)| <= 1
  {
    RunStamps(cfg, m, run);
    RunProjects(cfg, m, run, key);
    OfKeyHasKey(run.obs, key);
    if |OfKey(run.obs, key)| <= 1 {
      OneDecisionPerRun(cfg, key, Lookup(m, key), Project(run, key));
    }
  }

  /** Log entries are stamped with run ids that never go back. */
  predicate IdsRise(log: seq<Post>, runs: int) {
    && (forall i :: 0 <= i < |log| ==> 1 <= log[i].alert.runID <= runs)
    && (forall i, j :: 0 <= i < j < |log| ==> log[i].alert.runID <= log[j].alert.runID)
  }

  /** Two entries about the key are of two runs, or of one decision to two channels. */
  predicate OncePerRun(log: seq<Post>, key: string, distinct: bool) {
    forall i, j :: 0 <= i < j < |log| && log[i].alert.key == key && log[j].alert.key == key ==>
      || log[i].alert.runID < log[j].alert.runID
      || (log[i].alert == log[j].alert && (distinct ==> log[i].target != log[j].target))
  }

  predicate Stamped(posts: seq<Post>, id: int) {
    forall i :: 0 <= i < |posts| ==> posts[i].alert.runID == id
  }

  lemma {:induction false} IdsRiseConcat(p: seq<Post>, q: seq<Post>, n: nat)
    requires IdsRise(p, n) && Stamped(q, n + 1)
    ensures IdsRise(p + q, n + 1)
  {
  }

  lemma {:induction false} OncePerRunConcat(p: seq<Post>, q: seq<Post>, n: nat, key: string, distinct: bool)
    requires IdsRise(p, n) && Stamped(q, n + 1) && OncePerRun(p, key, distinct) && OnceEach(q, key, distinct)
    ensures OncePerRun(p + q, key, distinct)
  {
  }

  lemma {:induction false} PostsAreStamped(cfg: Config, runs: seq<Run>, n: nat)
    requires ValidRuns(cfg, runs) && Numbered(runs) && n < |runs|
    ensures Stamped(PostsAt(cfg, runs, n), n + 1)
  {
    ValidPrefix(cfg, runs, n);
    RunStamps(cfg, AlertsAfter(cfg, runs, n), runs[n]);
    PostsExact(cfg, DecisionsAt(cfg, runs, n));
    var posts := PostsAt(cfg, runs, n);
    forall i | 0 <= i < |posts|
      ensures posts[i].alert.runID == n + 1
    {
      assert posts[i] in posts;
    }
  }

  lemma {:induction false} DeliveredIdsRise(cfg: Config, runs: seq<Run>, posted: seq<nat>)
    requires ValidRuns(cfg, runs) && Progress(cfg, runs, posted) && Numbered(runs)
    ensures IdsRise(Delivered(cfg, runs, posted), |runs|)
    decreases |runs|
  {
    if runs != [] {
      var n := |runs| - 1;
      PrefixProgress(cfg, runs, posted);
      DeliveredIdsRise(cfg, runs[..n], posted[..n]);
      PostsAreStamped(cfg, runs, n);
      IdsRiseConcat(Delivered(cfg, runs[..n], posted[..n]), PostsAt(cfg, runs, n)[..posted[n]], n);
    }
  }

  /** One decision of a key names no channel twice, if routing does not. */
  lemma {:induction false} TickNoticeOnce(cfg: Config, key: string, ticks: seq<Tick>, t: Tick, d: Decision)
    requires RoutesOnce(cfg) && |t.obs| <= 1 && d in ExecTick(cfg, key, ExecTicks(cfg, key, ticks).state, t).sent
    ensures NoDuplicates(d.targets)
  {
    ExecTickUnfolds(cfg, key, ExecTicks(cfg, key, ticks).state, t);
    NoticeOnce(cfg, key, History(ticks), if t.obs != [] then Seen(t.obs[0], t.env) else SourceDown(t.env), d);
  }

  lemma {:induction false} RunPostsOnce(cfg: Config, runs: seq<Run>, n: nat, key: string, distinct: bool)
    requires ValidRuns(cfg, runs) && n < |runs| && |OfKey(runs[n].obs, key)| <= 1
    requires distinct ==> RoutesOnce(cfg)
    ensures OnceEach(PostsAt(cfg, runs, n), key, distinct)
  {
    ValidPrefix(cfg, runs, n);
    var m, sent := AlertsAfter(cfg, runs, n), DecisionsAt(cfg, runs, n);
    RunDecisions(cfg, m, runs[n], key);
    RunProjects(cfg, m, runs[n], key);
    RunsProject(cfg, runs[..n], key);
    if distinct {
      forall d | d in DecisionsOf(sent, key)
        ensures NoDuplicates(d.targets)
      {
        TickNoticeOnce(cfg, key, ProjectAll(runs[..n], key), Project(runs[n], key), d);
      }
    }
    PostsOnce(cfg, sent, key, distinct);
  }

  lemma {:induction false} OnceEachPrefix(posts: seq<Post>, k: nat, key: string, distinct: bool)
    requires OnceEach(posts, key, distinct) && k <= |posts|
    ensures OnceEach(posts[..k], key, distinct)
  {
  }

  lemma {:induction false} DeliveredOncePerRun(
      cfg: Config, runs: seq<Run>, posted: seq<nat>, key: string, distinct: bool)
    requires ValidRuns(cfg, runs) && Progress(cfg, runs, posted) && Numbered(runs) && KeyOnce(runs, key)
    requires distinct ==> RoutesOnce(cfg)
    ensures OncePerRun(Delivered(cfg, runs, posted), key, distinct)
    decreases |runs|
  {
    if runs != [] {
      var n := |runs| - 1;
      PrefixProgress(cfg, runs, posted);
      DeliveredIdsRise(cfg, runs[..n], posted[..n]);
      DeliveredOncePerRun(cfg, runs[..n], posted[..n], key, distinct);
      PostsAreStamped(cfg, runs, n);
      RunPostsOnce(cfg, runs, n, key, distinct);
      OnceEachPrefix(PostsAt(cfg, runs, n), posted[n], key, distinct);
      OncePerRunConcat(Delivered(cfg, runs[..n], posted[..n]), PostsAt(cfg, runs, n)[..posted[n]], n, key, distinct);
    }
  }

  /** Crashes, dry runs and failed saves leave no trace: whatever happened, the state
      file - alert records, service records and disk rings - is the one a process that
      never crashed would have written for the runs whose save succeeded, numbered 1, 2,
      3, ... */
  lemma {:induction false} CrashesLeaveNoTrace(cfg: Config, trace: seq<Sys>)
    requires Behaviour(cfg, trace)
    ensures CrashFree(cfg, trace[|trace| - 1])
  {
    InvHolds(cfg, trace);
  }

  /** At most once, in order, and only what is durable. Run ids in the log never go back
      and none exceeds the durable counter. A key that no committed run observes twice is
      posted about once a run: two posts about it in one run are one decision going to
      two channels, and to two different ones if routing lists no channel twice. */
  lemma {:induction false} DeliveredAtMostOnce(cfg: Config, trace: seq<Sys>, key: string)
    requires Behaviour(cfg, trace)
    ensures var s := trace[|trace| - 1];
            && IdsRise(s.log, s.disk.runCount)
            && (KeyOnce(s.committed, key) ==> OncePerRun(s.log, key, false))
            && (KeyOnce(s.committed, key) && RoutesOnce(cfg) ==> OncePerRun(s.log, key, true))
  {
    InvHolds(cfg, trace);
    var s := trace[|trace| - 1];
    DeliveredIdsRise(cfg, s.committed, s.posted);
    if KeyOnce(s.committed, key) {
      DeliveredOncePerRun(cfg, s.committed, s.posted, key, false);
      if RoutesOnce(cfg) {
        DeliveredOncePerRun(cfg, s.committed, s.posted, key, true);
      }
    }
  }

  /** Everything posted was decided by the committed run whose id it carries, for that
      channel. */
  lemma {:induction false} DeliveredWasDecided(cfg: Config, runs: seq<Run>, posted: seq<nat>, i: nat)
    returns (n: nat, d: Decision)
    requires ValidRuns(cfg, runs) && Numbered(runs) && Progress(cfg, runs, posted)
    requires i < |Delivered(cfg, runs, posted)|
    ensures var p := Delivered(cfg, runs, posted)[i];
            && n < |runs| && d in DecisionsAt(cfg, runs, n)
            && p.alert == d.alert && p.target in d.targets && p.alert.runID == n + 1
    decreases |runs|
  {
    n := |runs| - 1;
    PrefixProgress(cfg, runs, posted);
    PrefixDecisions(cfg, runs);
    var p, q := Delivered(cfg, runs[..n], posted[..n]), PostsAt(cfg, runs, n)[..posted[n]];
    assert Delivered(cfg, runs, posted) == p + q;
    if i < |p| {
      n, d := DeliveredWasDecided(cfg, runs[..n], posted[..n], i);
    } else {
      var x := q[i - |p|];
      PostsAreStamped(cfg, runs, n);
      assert x == PostsAt(cfg, runs, n)[i - |p|] && x in PostsAt(cfg, runs, n);
      PostsExact(cfg, DecisionsAt(cfg, runs, n));
      d :| d in DecisionsAt(cfg, runs, n) && d.alert == x.alert && x.target in d.targets;
    }
  }

  // ---- what the durable memory is worth ----

  lemma {:induction false} DurableIsRecorded(cfg: Config, trace: seq<Sys>)
    requires Behaviour(cfg, trace)
    ensures var s := trace[|trace| - 1];
            && Memories.Recorded(s.samples, s.memories, cfg.CrashWindow())
            && s.disk.memory == Memories.LastMemory(s.memories)
  {
    InvHolds(cfg, trace);
  }

  /** Whatever crashed in between, the next run's crash count from the state file is that
      of every crash any committed run ever saw. */
  lemma {:induction false} DurableCountsWholeLog(
      cfg: Config, trace: seq<Sys>, key: string, cur: Baselines.Sample)
    requires Behaviour(cfg, trace) && cur.dockerOK
    requires var runs := Memories.ServiceRuns(trace[|trace| - 1].samples, key) + [Baselines.SeenBy(cur, key)];
             Services.CutoffsClear(runs, cfg.CrashWindow()) && Services.ReportedInOrder(Services.CrashLog(runs))
    ensures var s := trace[|trace| - 1];
            var runs := Memories.ServiceRuns(s.samples, key) + [Baselines.SeenBy(cur, key)];
            var prev, u := Baselines.Find(s.disk.memory.services, key), Services.Unix(cur.now - cfg.CrashWindow());
            Services.InWindow(Services.EventsOf(prev), u)
            + Services.InWindow(Services.CrashRecords(Baselines.OfService(cur.containers, key)), u)
            == Services.InWindow(Services.CrashLog(runs), u)
  {
    var s := trace[|trace| - 1];
    DurableIsRecorded(cfg, trace);
    Memories.MemoryCountsWholeLog(s.samples, s.memories, cfg.CrashWindow(), key, cur);
  }

  /** And every ring in the state file is the ring of all readings of its filesystem that
      committed runs took. */
  lemma {:induction false} DurableRings(cfg: Config, trace: seq<Sys>, path: string)
    requires Behaviour(cfg, trace)
    ensures var s := trace[|trace| - 1];
            Baselines.RingAt(s.disk.memory.rings, path) == Disk.RingOf(Memories.ReadingsOf(s.samples, path))
  {
    var s := trace[|trace| - 1];
    DurableIsRecorded(cfg, trace);
    Memories.RingsHoldReadings(s.samples, s.memories, cfg.CrashWindow(), path);
  }
}

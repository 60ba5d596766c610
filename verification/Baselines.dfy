/** What a run remembers of its sample: one record per service and one ring per
    filesystem, updated in place; and the judgement of one service from its record. */
module Baselines {
  import opened Types
  import opened Collect
  import opened Services
  import opened Disk

  datatype Sample = Sample(now: int, dockerOK: bool, containers: seq<Container>, disks: seq<DiskInfo>, runID: int,
    bootID: string)

  function OfService(cs: seq<Container>, key: string): seq<Container> {
    if cs == [] then []
    else
      var c := cs[|cs| - 1];
      OfService(cs[..|cs| - 1], key) + if c.ServiceKey() == key then [c] else []
  }

  /** The run as one service sees it. */
  function SeenBy(s: Sample, key: string): ServiceRun {
    ServiceRun(s.now, s.dockerOK, OfService(s.containers, key), s.runID, s.bootID)
  }

  /** Every container of the service and no other. */
  lemma {:induction false} OfServiceExactly(cs: seq<Container>, key: string, c: Container)
    ensures c in OfService(cs, key) <==> c in cs && c.ServiceKey() == key
  {
    if cs != [] {
      var n := |cs| - 1;
      OfServiceExactly(cs[..n], key, c);
      assert c in cs <==> c in cs[..n] || c == cs[n];
    }
  }

  method GroupByService(cs: seq<Container>) returns (m: map<string, seq<Container>>)
    ensures forall key :: key in m <==> OfService(cs, key) != []
    ensures forall key :: key in m ==> m[key] == OfService(cs, key)
  {
    m := map[];
    for i := 0 to |cs|
      invariant forall key :: key in m <==> OfService(cs[..i], key) != []
      invariant forall key :: key in m ==> m[key] == OfService(cs[..i], key)
    {
      assert cs[..i + 1][..i] == cs[..i];
      var key := cs[i].ServiceKey();
      m := m[key := (if key in m then m[key] else []) + [cs[i]]];
    }
    assert cs[..|cs|] == cs;
  }

  method MaxInspectedRestartCount(cts: seq<Container>) returns (max: nat, any: bool)
    ensures MaxInspected(cts) == if any then Some(max) else None
  {
    max, any := 0, false;
    for i := 0 to |cts|
      invariant MaxInspected(cts[..i]) == if any then Some(max) else None
      invariant !any ==> max == 0
    {
      assert cts[..i + 1][..i] == cts[..i];
      if !cts[i].inspected {
        continue;
      }
      any := true;
      if cts[i].restartCount > max {
        max := cts[i].restartCount;
      }
    }
    assert cts[..|cts|] == cts;
  }

  method ComputeMaxOOMKill(cts: seq<Container>) returns (m: nat)
    ensures m == MaxOOMKill(cts)
  {
    m := 0;
    for i := 0 to |cts|
      invariant m == MaxOOMKill(cts[..i])
    {
      assert cts[..i + 1][..i] == cts[..i];
      if cts[i].cgroup.health == OK && cts[i].cgroup.oomKillCount > m {
        m := cts[i].cgroup.oomKillCount;
      }
    }
    assert cts[..|cts|] == cts;
  }

  function Find(services: map<string, ServiceState>, key: string): Option<ServiceState> {
    if key in services then Some(services[key]) else None
  }

  /** The part of the state file that does not concern alerts. */
  datatype Memory = Memory(services: map<string, ServiceState>, rings: map<string, seq<DiskPoint>>)

  const NO_MEMORY := Memory(map[], map[])

  function RingAt(rings: map<string, seq<DiskPoint>>, path: string): seq<DiskPoint> {
    if path in rings then rings[path] else []
  }

  /** The rings after every readable filesystem of a sample was added to its own. */
  function AddReadings(rings: map<string, seq<DiskPoint>>, disks: seq<DiskInfo>, now: int)
    : map<string, seq<DiskPoint>>
  {
    if disks == [] then rings
    else
      var d := disks[|disks| - 1];
      var before := AddReadings(rings, disks[..|disks| - 1], now);
      if d.health == OK then before[d.path := AddPoint(RingAt(before, d.path), DiskPoint(now, d.used))] else before
  }

  /** What a run's sample may make of the memory. */
  ghost predicate Remembers(m: Memory, s: Sample, window: int, n: Memory) {
    && n.rings == AddReadings(m.rings, s.disks, s.now)
    && forall key :: ServiceStep(Find(m.services, key), SeenBy(s, key), window, Find(n.services, key))
  }

  ghost predicate RingsBounded(m: Memory) {
    forall path :: path in m.rings ==> |m.rings[path]| <= RING_MAX
  }

  lemma {:induction false} ReadingsKeepBound(m: Memory, disks: seq<DiskInfo>, now: int)
    requires RingsBounded(m)
    ensures RingsBounded(m.(rings := AddReadings(m.rings, disks, now)))
  {
    if disks != [] {
      ReadingsKeepBound(m, disks[..|disks| - 1], now);
    }
  }

  class BaselineTable {
    var services: map<string, ServiceState>
    var rings: map<string, DiskRing>

    ghost function Repr(): set<object>
      reads this
    {
      {this} + rings.Values
    }

    /** No two filesystems share a ring. */
    ghost predicate Valid()
      reads Repr()
    {
      && (forall p, q :: p in rings && q in rings && p != q ==> rings[p] != rings[q])
      && (forall p :: p in rings ==> rings[p].Valid())
    }

    ghost function Rings(): map<string, seq<DiskPoint>>
      reads Repr()
    {
      map p | p in rings :: rings[p].points
    }

    ghost function View(): Memory
      reads Repr()
    {
      Memory(services, Rings())
    }

    /** One ring written, the others as they were. */
    lemma {:induction false} RingsPut(m: map<string, seq<DiskPoint>>, path: string, points: seq<DiskPoint>)
      requires rings.Keys == m.Keys + {path} && rings[path].points == points
      requires forall p :: p in rings && p != path ==> rings[p].points == m[p]
      ensures Rings() == m[path := points]
    {
    }

    /** Reads a durable memory back, its rings into fresh objects. */
    constructor (stored: Memory)
      requires RingsBounded(stored)
      ensures Valid() && fresh(Repr()) && View() == stored
    {
      services, rings := stored.services, map[];
      new;
      var todo := stored.rings.Keys;
      while todo != {}
        invariant Valid() && fresh(Repr()) && services == stored.services
        invariant todo <= stored.rings.Keys
        invariant Rings() == stored.rings - todo
        decreases todo
      {
        var p :| p in todo;
        assert stored.rings - (todo - {p}) == (stored.rings - todo)[p := stored.rings[p]];
        assert rings.Keys == Rings().Keys;
        PutRing(p, stored.rings[p]);
        todo := todo - {p};
      }
    }

    /** Encodes the memory as a durable value. */
    method Encode() returns (stored: Memory)
      ensures stored == View()
    {
      var encoded: map<string, seq<DiskPoint>> := map[];
      var todo := rings.Keys;
      while todo != {}
        invariant todo <= rings.Keys && encoded.Keys == rings.Keys - todo
        invariant forall p :: p in encoded ==> encoded[p] == rings[p].points
        decreases todo
      {
        var p :| p in todo;
        encoded := encoded[p := rings[p].points];
        todo := todo - {p};
      }
      stored := Memory(services, encoded);
    }

    method PutRing(path: string, points: seq<DiskPoint>)
      requires Valid() && path !in rings && |points| <= RING_MAX
      modifies this`rings
      ensures Valid() && path in rings && services == old(services)
      ensures fresh(Repr() - old(Repr()))
      ensures Rings() == old(Rings())[path := points]
    {
      ghost var m := Rings();
      var r := new DiskRing(points, points);
      rings := rings[path := r];
      RingsPut(m, path, points);
    }

    /** The ring of a path, created when absent. */
    method Ring(path: string) returns (r: DiskRing)
      requires Valid()
      modifies this`rings
      ensures Valid() && path in rings && r == rings[path] && fresh(Repr() - old(Repr()))
      ensures Rings() == old(Rings())[path := RingAt(old(Rings()), path)]
    {
      if path !in rings {
        PutRing(path, []);
      }
      r := rings[path];
    }

    /** Adds to a ring that is there. */
    method Extend(path: string, p: DiskPoint)
      requires Valid() && path in rings
      modifies rings[path]
      ensures Valid() && Rings() == old(Rings())[path := AddPoint(old(Rings())[path], p)]
    {
      ghost var m := Rings();
      var r := rings[path];
      AddToRing(r.history, p);
      r.Add(p);
      assert forall q :: q in rings && q != path ==> rings[q].points == m[q];
      RingsPut(m, path, r.points);
    }

    method AddReading(path: string, p: DiskPoint)
      requires Valid()
      modifies this`rings, rings.Values
      ensures Valid() && fresh(Repr() - old(Repr()))
      ensures Rings() == old(Rings())[path := AddPoint(RingAt(old(Rings()), path), p)]
    {
      var r := Ring(path);
      assert Rings()[path] == RingAt(old(Rings()), path);
      Extend(path, p);
    }

    method RecordDisks(disks: seq<DiskInfo>, now: int)
      requires Valid()
      modifies this`rings, rings.Values
      ensures Valid() && fresh(Repr() - old(Repr()))
      ensures Rings() == AddReadings(old(Rings()), disks, now)
    {
      for i := 0 to |disks|
        invariant Valid() && fresh(Repr() - old(Repr()))
        invariant Rings() == AddReadings(old(Rings()), disks[..i], now)
      {
        assert disks[..i + 1][..i] == disks[..i];
        if disks[i].health == OK {
          AddReading(disks[i].path, DiskPoint(now, disks[i].used));
        }
      }
      assert disks[..|disks|] == disks;
    }

    method UpdateService(key: string, s: Sample, cts: seq<Container>, window: int)
      requires s.dockerOK && cts == OfService(s.containers, key) && cts != []
      modifies this`services
      ensures ServiceStep(Find(old(services), key), SeenBy(s, key), window, Find(services, key))
      ensures forall k :: k != key ==> Find(services, k) == Find(old(services), k)
    {
      var st := if key in services then services[key] else ServiceState(0, 0, [], 0, "");
      var cutoff := s.now - window;
      var rc, ok := MaxInspectedRestartCount(cts);
      var count := if ok then rc else st.lastRestartCount;
      var oom := ComputeMaxOOMKill(cts);
      var events := MergeExitEvents(st.exitEvents, cts, cutoff);
      services := services[key := ServiceState(count, oom, events, s.runID, s.bootID)];
    }

    method PruneServices(currentRun: int)
      modifies this`services
      ensures forall key :: Find(services, key) == Forgotten(Find(old(services), key), currentRun)
    {
      var todo := services.Keys;
      while todo != {}
        invariant todo <= services.Keys
        invariant forall key :: key in todo ==> Find(services, key) == Find(old(services), key)
        invariant forall key :: key !in todo ==> Find(services, key) == Forgotten(Find(old(services), key), currentRun)
        decreases todo
      {
        var key :| key in todo;
        todo := todo - {key};
        if services[key].lastSeenRun != currentRun && |services[key].exitEvents| == 0 {
          services := services - {key};
        }
      }
    }

    method UpdateServices(s: Sample, window: int)
      modifies this`services
      ensures forall key :: ServiceStep(Find(old(services), key), SeenBy(s, key), window, Find(services, key))
    {
      ghost var before := services;
      if s.dockerOK {
        var groups := GroupByService(s.containers);
        var todo := groups.Keys;
        while todo != {}
          invariant todo <= groups.Keys
          invariant forall key :: key !in groups || key in todo ==> Find(services, key) == Find(before, key)
          invariant forall key :: key in groups && key !in todo ==>
                      ServiceStep(Find(before, key), SeenBy(s, key), window, Find(services, key))
          decreases todo
        {
          var key :| key in todo;
          todo := todo - {key};
          UpdateService(key, s, groups[key], window);
        }
      }
      PruneServices(s.runID);
    }

    /** Every filesystem's ring takes its readings, and every service exactly one step of
        its own machine: those in the sample are updated, the others aged, and on a
        Docker outage all are aged. */
    method UpdateBaselines(s: Sample, window: int)
      requires Valid()
      modifies this, rings.Values
      ensures Valid() && fresh(Repr() - old(Repr()))
      ensures Remembers(old(View()), s, window, View())
    {
      RecordDisks(s.disks, s.now);
      UpdateServices(s, window);
    }
  }

  // ---- the verdict ----

  predicate UninspectedRunning(cts: seq<Container>) {
    exists i :: 0 <= i < |cts| && cts[i].Running() && !cts[i].inspected
  }

  /** The verdict from a number of crashes in the window and in-place restarts. */
  function Verdict(cts: seq<Container>, windowCrashes: nat, restarts: nat, limit: int): Health {
    if UninspectedRunning(cts) && windowCrashes == 0 then UNKNOWN
    else if windowCrashes >= limit || restarts >= limit then BAD
    else OK
  }

  method ComputeMaxRestarts(cts: seq<Container>) returns (max: nat)
    ensures max == MaxRestarts(cts)
  {
    max := 0;
    for i := 0 to |cts|
      invariant max == MaxRestarts(cts[..i])
    {
      assert cts[..i + 1][..i] == cts[..i];
      if cts[i].restartCount > max {
        max := cts[i].restartCount;
      }
    }
    assert cts[..|cts|] == cts;
  }

  method HasUninspectedRunning(cts: seq<Container>) returns (b: bool)
    ensures b == UninspectedRunning(cts)
  {
    for i := 0 to |cts|
      invariant forall k :: 0 <= k < i ==> !(cts[k].Running() && !cts[k].inspected)
    {
      if cts[i].Running() && !cts[i].inspected {
        return true;
      }
    }
    return false;
  }

  lemma {:induction false} UninspectedExact(cts: seq<Container>)
    ensures UninspectedRunning(cts) <==> exists c :: c in cts && c.state == "running" && !c.inspected
  {
  }

  /** The containers known to have crashed in the window, stored or in sight. */
  function CrashesSeen(prev: Option<ServiceState>, r: ServiceRun, window: int): set<string> {
    InWindow(EventsOf(prev), Unix(r.now - window)) + InWindow(CrashRecords(r.cts), Unix(r.now - window))
  }

  /** The verdict and the measured value, container by container. */
  lemma {:induction false} JudgedExactly(prev: Option<ServiceState>, r: ServiceRun, hadBaseline: bool,
      bootChanged: bool, window: int, limit: int, health: Health, crashes: nat)
    requires var seen, delta := |CrashesSeen(prev, r, window)|, RestartDelta(hadBaseline, bootChanged, prev, r);
             health == Verdict(r.cts, seen, delta, limit) && crashes == if delta > seen then delta else seen
    ensures health == UNKNOWN <==>
            CrashesSeen(prev, r, window) == {} && exists c :: c in r.cts && c.state == "running" && !c.inspected
    ensures health == BAD <==> health != UNKNOWN && crashes >= limit
    ensures HasBaseline(hadBaseline, bootChanged, prev, r.bootID) ==>
              && (forall c :: c in r.cts ==> crashes >= c.restartCount - prev.value.lastRestartCount)
              && (|| crashes == |CrashesSeen(prev, r, window)|
                  || exists c :: c in r.cts && crashes == c.restartCount - prev.value.lastRestartCount)
    ensures !HasBaseline(hadBaseline, bootChanged, prev, r.bootID) ==> crashes == |CrashesSeen(prev, r, window)|
  {
    DeltaExactly(hadBaseline, bootChanged, prev, r);
    UninspectedExact(r.cts);
    assert |CrashesSeen(prev, r, window)| == 0 <==> CrashesSeen(prev, r, window) == {};
  }

  method RestartsSince(prev: Option<ServiceState>, r: ServiceRun, hadBaseline: bool, bootChanged: bool)
    returns (restartDelta: nat)
    ensures restartDelta == RestartDelta(hadBaseline, bootChanged, prev, r)
  {
    restartDelta := 0;
    if hadBaseline && !bootChanged {
      if prev.Some? && prev.value.bootID == r.bootID {
        var cur := ComputeMaxRestarts(r.cts);
        if cur >= prev.value.lastRestartCount {
          restartDelta := cur - prev.value.lastRestartCount;
        }
      }
    }
  }

  method EvalService(
      prev: Option<ServiceState>, r: ServiceRun, hadBaseline: bool, bootChanged: bool, window: int, limit: int)
    returns (health: Health, crashes: nat)
    ensures var seen, delta := |CrashesSeen(prev, r, window)|, RestartDelta(hadBaseline, bootChanged, prev, r);
            health == Verdict(r.cts, seen, delta, limit) && crashes == if delta > seen then delta else seen
    ensures health == UNKNOWN <==>
            CrashesSeen(prev, r, window) == {} && exists c :: c in r.cts && c.state == "running" && !c.inspected
    ensures health == BAD <==> health != UNKNOWN && crashes >= limit
    ensures HasBaseline(hadBaseline, bootChanged, prev, r.bootID) ==>
              && (forall c :: c in r.cts ==> crashes >= c.restartCount - prev.value.lastRestartCount)
              && (|| crashes == |CrashesSeen(prev, r, window)|
                  || exists c :: c in r.cts && crashes == c.restartCount - prev.value.lastRestartCount)
    ensures !HasBaseline(hadBaseline, bootChanged, prev, r.bootID) ==> crashes == |CrashesSeen(prev, r, window)|
  {
    var windowCrashes := CountWindowCrashes(prev, r.cts, Unix(r.now - window));
    var restartDelta := RestartsSince(prev, r, hadBaseline, bootChanged);
    crashes := windowCrashes;
    if restartDelta > crashes {
      crashes := restartDelta;
    }
    var blind := HasUninspectedRunning(r.cts);
    if blind && windowCrashes == 0 {
      health := UNKNOWN;
    } else if crashes >= limit {
      health := BAD;
    } else {
      health := OK;
    }
    JudgedExactly(prev, r, hadBaseline, bootChanged, window, limit, health, crashes);
  }

  /** The verdict a service gets from its bounded store is the one the unbounded crash
      log would give. */
  lemma {:induction false} VerdictCountsWholeLog(states: seq<Option<ServiceState>>, runs: seq<ServiceRun>,
      window: int, hadBaseline: bool, bootChanged: bool, limit: int)
    requires runs != [] && runs[|runs| - 1].dockerOK
    requires Follows(states, runs[..|runs| - 1], window)
    requires CutoffsClear(runs, window) && ReportedInOrder(CrashLog(runs))
    ensures var prev, cur := states[|runs| - 1], runs[|runs| - 1];
            var u, delta := Unix(cur.now - window), RestartDelta(hadBaseline, bootChanged, prev, cur);
            Verdict(cur.cts, |InWindow(EventsOf(prev), u) + InWindow(CrashRecords(cur.cts), u)|, delta, limit)
            == Verdict(cur.cts, |InWindow(CrashLog(runs), u)|, delta, limit)
  {
    StoreCountsWholeLog(states, runs, window);
  }

  lemma {:induction false} StretchCounts(states: seq<Option<ServiceState>>, runs: seq<ServiceRun>,
      window: int, bootID: string, from: int, cur: ServiceRun)
    requires Stretch(states, runs, window, bootID, from) && states[0].None? && cur.dockerOK
    requires CutoffsClear(runs + [cur], window) && ReportedInOrder(CrashLog(runs + [cur]))
    ensures CountsWholeLog(states, runs + [cur], window)
  {
    var all := runs + [cur];
    assert all[..|all| - 1] == runs;
    RunsAfter(states, runs, window, bootID, from);
    StoreCountsWholeLog(states, all, window);
  }

  /** For a one-container service both memories can be replaced by its whole past: as
      long as the record was kept, an inspected run judges by the distinct crashes of the
      full log in the window and by the restarts since the last inspected run. */
  lemma {:induction false} VerdictIsOfHistory(states: seq<Option<ServiceState>>, runs: seq<ServiceRun>,
      window: int, bootID: string, from: int, cur: ServiceRun, limit: int)
    requires Stretch(states, runs, window, bootID, from) && states[0].None? && Kept(states, runs)
    requires OneContainer(cur, bootID) && Inspected(cur) && cur.cts[0].restartCount >= LastInspected(runs, 0)
    requires CutoffsClear(runs + [cur], window) && ReportedInOrder(CrashLog(runs + [cur]))
    ensures var prev, u := states[|runs|], Unix(cur.now - window);
            Verdict(cur.cts, |InWindow(EventsOf(prev), u) + InWindow(CrashRecords(cur.cts), u)|,
                    RestartDelta(true, false, prev, cur), limit)
            == Verdict(cur.cts, |InWindow(CrashLog(runs + [cur]), u)|,
                       cur.cts[0].restartCount - LastInspected(runs, 0), limit)
  {
    var prev, u := states[|runs|], Unix(cur.now - window);
    assert InWindow(EventsOf(prev), u) + InWindow(CrashRecords(cur.cts), u) == InWindow(CrashLog(runs + [cur]), u) by {
      StretchCounts(states, runs, window, bootID, from, cur);
    }
    assert RestartDelta(true, false, prev, cur) == cur.cts[0].restartCount - LastInspected(runs, 0) by {
      DeltaIsTrueExactly(states, runs, window, bootID, from, cur);
    }
  }
}

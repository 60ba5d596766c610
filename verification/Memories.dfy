/** What the memory of a sequence of runs is worth, whatever went wrong between them: each
    service's record follows its own machine, and each ring is that of all readings. */
module Memories {
  import opened Types
  import opened Disk
  import opened Services
  import opened Baselines

  function LastMemory(memories: seq<Memory>): Memory {
    if memories == [] then NO_MEMORY else memories[|memories| - 1]
  }

  /** Each memory is what its run's sample made of the one before. */
  ghost predicate Recorded(samples: seq<Sample>, memories: seq<Memory>, window: int)
    decreases |samples|
  {
    && |samples| == |memories|
    && (samples == [] ||
        var n := |samples| - 1;
        && Recorded(samples[..n], memories[..n], window)
        && Remembers(LastMemory(memories[..n]), samples[n], window, memories[n]))
  }

  lemma {:induction false} RecordOneMore(
      samples: seq<Sample>, memories: seq<Memory>, window: int, s: Sample, m: Memory)
    requires Recorded(samples, memories, window) && Remembers(LastMemory(memories), s, window, m)
    ensures Recorded(samples + [s], memories + [m], window) && LastMemory(memories + [m]) == m
  {
    assert (samples + [s])[..|samples|] == samples && (memories + [m])[..|memories|] == memories;
  }

  // ---- services ----

  function ServiceRuns(samples: seq<Sample>, key: string): (r: seq<ServiceRun>)
    ensures |r| == |samples|
  {
    if samples == [] then []
    else ServiceRuns(samples[..|samples| - 1], key) + [SeenBy(samples[|samples| - 1], key)]
  }

  function ServiceStates(memories: seq<Memory>, key: string): (s: seq<Option<ServiceState>>)
    ensures |s| == |memories| + 1 && s[|memories|] == Find(LastMemory(memories).services, key)
  {
    if memories == [] then [None]
    else ServiceStates(memories[..|memories| - 1], key) + [Find(memories[|memories| - 1].services, key)]
  }

  lemma {:induction false} ServicesFollow(samples: seq<Sample>, memories: seq<Memory>, window: int, key: string)
    requires Recorded(samples, memories, window)
    ensures Follows(ServiceStates(memories, key), ServiceRuns(samples, key), window)
  {
    if samples != [] {
      var n := |samples| - 1;
      ServicesFollow(samples[..n], memories[..n], window, key);
      var states, runs := ServiceStates(memories, key), ServiceRuns(samples, key);
      assert states[..n + 1] == ServiceStates(memories[..n], key);
      assert runs[..n] == ServiceRuns(samples[..n], key);
      ContinuesSnoc(states, runs, window);
    }
  }

  /** The next run's crash count, from what the recorded runs left and the corpses in
      sight, is that of every crash any of them ever saw. */
  lemma {:induction false} MemoryCountsWholeLog(
      samples: seq<Sample>, memories: seq<Memory>, window: int, key: string, cur: Sample)
    requires Recorded(samples, memories, window) && cur.dockerOK
    requires var runs := ServiceRuns(samples, key) + [SeenBy(cur, key)];
             CutoffsClear(runs, window) && ReportedInOrder(CrashLog(runs))
    ensures var runs := ServiceRuns(samples, key) + [SeenBy(cur, key)];
            var prev, u := Find(LastMemory(memories).services, key), Unix(cur.now - window);
            InWindow(EventsOf(prev), u) + InWindow(CrashRecords(OfService(cur.containers, key)), u)
            == InWindow(CrashLog(runs), u)
  {
    var runs := ServiceRuns(samples, key) + [SeenBy(cur, key)];
    assert runs[..|runs| - 1] == ServiceRuns(samples, key);
    ServicesFollow(samples, memories, window, key);
    StoreCountsWholeLog(ServiceStates(memories, key), runs, window);
  }

  // ---- filesystems ----

  function ReadingsIn(disks: seq<DiskInfo>, now: int, path: string): seq<DiskPoint> {
    if disks == [] then []
    else
      var d := disks[|disks| - 1];
      ReadingsIn(disks[..|disks| - 1], now, path)
      + if d.health == OK && d.path == path then [DiskPoint(now, d.used)] else []
  }

  /** Every reading of a filesystem that any sample holds, in order. */
  function ReadingsOf(samples: seq<Sample>, path: string): seq<DiskPoint> {
    if samples == [] then []
    else
      var s := samples[|samples| - 1];
      ReadingsOf(samples[..|samples| - 1], path) + ReadingsIn(s.disks, s.now, path)
  }

  lemma {:induction false} ReadingsInExactly(disks: seq<DiskInfo>, now: int, path: string, p: DiskPoint)
    ensures p in ReadingsIn(disks, now, path) <==>
            exists d :: d in disks && d.health == OK && d.path == path && p.ts == now && p.used == d.used
  {
    if disks != [] {
      var n := |disks| - 1;
      ReadingsInExactly(disks[..n], now, path, p);
      assert disks == disks[..n] + [disks[n]];
    }
  }

  /** The sample read the filesystem, and found that much of it used. */
  predicate Read(s: Sample, path: string, p: DiskPoint) {
    exists d :: d in s.disks && d.health == OK && d.path == path && p.ts == s.now && p.used == d.used
  }

  /** What is remembered are the readings that were taken, each at its run's instant, and
      none of a filesystem that could not be read. */
  lemma {:induction false} ReadingsExactly(samples: seq<Sample>, path: string, p: DiskPoint)
    ensures p in ReadingsOf(samples, path) <==> exists s :: s in samples && Read(s, path, p)
  {
    if samples != [] {
      var n := |samples| - 1;
      ReadingsExactly(samples[..n], path, p);
      ReadingsInExactly(samples[n].disks, samples[n].now, path, p);
      assert p in ReadingsIn(samples[n].disks, samples[n].now, path) <==> Read(samples[n], path, p);
      assert samples == samples[..n] + [samples[n]];
    }
  }

  lemma {:induction false} RingOfSnoc(history: seq<DiskPoint>, p: DiskPoint)
    ensures RingOf(history + [p]) == AddPoint(RingOf(history), p)
  {
    assert (history + [p])[..|history|] == history;
  }

  lemma {:induction false} ReadingsExtendRing(
      rings: map<string, seq<DiskPoint>>, disks: seq<DiskInfo>, now: int, path: string, history: seq<DiskPoint>)
    requires RingAt(rings, path) == RingOf(history)
    ensures RingAt(AddReadings(rings, disks, now), path) == RingOf(history + ReadingsIn(disks, now, path))
  {
    if disks == [] {
      assert history + [] == history;
    } else {
      var p, d := disks[..|disks| - 1], disks[|disks| - 1];
      ReadingsExtendRing(rings, p, now, path, history);
      var before := history + ReadingsIn(p, now, path);
      if d.health == OK && d.path == path {
        RingOfSnoc(before, DiskPoint(now, d.used));
        assert before + [DiskPoint(now, d.used)] == history + ReadingsIn(disks, now, path);
      } else {
        assert before == history + ReadingsIn(disks, now, path);
      }
    }
  }

  /** Every ring is the ring of all recorded readings of its filesystem. */
  lemma {:induction false} RingsHoldReadings(
      samples: seq<Sample>, memories: seq<Memory>, window: int, path: string)
    requires Recorded(samples, memories, window)
    ensures RingAt(LastMemory(memories).rings, path) == RingOf(ReadingsOf(samples, path))
  {
    if samples != [] {
      var n := |samples| - 1;
      RingsHoldReadings(samples[..n], memories[..n], window, path);
      ReadingsExtendRing(LastMemory(memories[..n]).rings, samples[n].disks, samples[n].now, path,
                         ReadingsOf(samples[..n], path));
    }
  }

  lemma {:induction false} RecordedRingsBounded(samples: seq<Sample>, memories: seq<Memory>, window: int)
    requires Recorded(samples, memories, window)
    ensures RingsBounded(LastMemory(memories))
  {
    var m := LastMemory(memories);
    forall path | path in m.rings
      ensures |m.rings[path]| <= RING_MAX
    {
      RingsHoldReadings(samples, memories, window, path);
      RingKeepsLast(ReadingsOf(samples, path));
    }
  }
}

/** Crash-loop facts container by container: what is stored, what is counted and what the
    verdict is, in the fields of the containers themselves. */
module CrashFacts {
  import opened Types
  import opened Collect
  import opened Services
  import opened Baselines

  // ---- which exits count ----

  /** The record of a sample is exactly its crashed containers: exited, inspected, with a
      finish time, and either a non-zero exit code or killed for memory. */
  lemma {:induction false} RecordsExact(cts: seq<Container>)
    ensures forall e :: e in CrashRecords(cts) <==>
              exists c :: && c in cts && c.id == e.containerID && c.finishedAt == e.at
                && c.state == "exited" && c.inspected && c.finishedAt != 0
                && (c.exitCode != 0 || c.oomKilled)
  {
    if cts != [] {
      var n := |cts| - 1;
      RecordsExact(cts[..n]);
      assert cts == cts[..n] + [cts[n]];
    }
  }

  /** What is counted: an id is, if and only if a stored exit of it lies in the window, or a
      container of it in sight crashed in the window, which begins with a whole second. */
  lemma {:induction false} CountedExactly(prev: Option<ServiceState>, r: ServiceRun, window: int, id: string)
    ensures id in CrashesSeen(prev, r, window) <==>
            || (prev.Some? && exists e :: && e in prev.value.exitEvents && e.containerID == id
                                          && e.at / 1_000_000_000 >= (r.now - window) / 1_000_000_000)
            || (exists c :: && c in r.cts && c.id == id
                  && c.state == "exited" && c.inspected && c.finishedAt != 0
                  && (c.exitCode != 0 || c.oomKilled)
                  && c.finishedAt / 1_000_000_000 >= (r.now - window) / 1_000_000_000)
  {
    RecordsExact(r.cts);
    if c :| && c in r.cts && c.id == id && c.state == "exited" && c.inspected && c.finishedAt != 0
            && (c.exitCode != 0 || c.oomKilled) && Unix(c.finishedAt) >= Unix(r.now - window) {
      assert ExitEvent(c.id, c.finishedAt) in CrashRecords(r.cts);
    }
  }

  lemma {:induction false} LastValuesAmong(all: seq<ExitEvent>)
    ensures forall id :: id in LastValues(all) <==> exists e :: e in all && e.containerID == id
    ensures forall id :: id in LastValues(all) ==> ExitEvent(id, LastValues(all)[id]) in all
  {
    if all != [] {
      var n := |all| - 1;
      LastValuesAmong(all[..n]);
      assert all == all[..n] + [all[n]];
    }
  }

  /** What is stored: an id is, if and only if a stored exit of it, or a crash of it in
      sight, is not before the cutoff; and then the instant of one of those. */
  lemma {:induction false} StoredExactly(prev: seq<ExitEvent>, cts: seq<Container>, cutoff: int, id: string)
    ensures id in Merged(prev, cts, cutoff) <==>
            || (exists e :: e in prev && e.containerID == id && e.at >= cutoff)
            || (exists c :: && c in cts && c.id == id && c.finishedAt >= cutoff
                  && c.state == "exited" && c.inspected && c.finishedAt != 0
                  && (c.exitCode != 0 || c.oomKilled))
    ensures id in Merged(prev, cts, cutoff) ==>
            var at := Merged(prev, cts, cutoff)[id];
            at >= cutoff && (ExitEvent(id, at) in prev || ExitEvent(id, at) in CrashRecords(cts))
  {
    RecordsExact(cts);
    SinceExact(prev, cutoff);
    SinceExact(CrashRecords(cts), cutoff);
    var a, b := Since(prev, cutoff), Since(CrashRecords(cts), cutoff);
    LastValuesAmong(a + b);
    assert forall e :: e in a + b <==> e in a || e in b;
    if c :| && c in cts && c.id == id && c.finishedAt >= cutoff && c.state == "exited" && c.inspected
            && c.finishedAt != 0 && (c.exitCode != 0 || c.oomKilled) {
      assert ExitEvent(c.id, c.finishedAt) in b;
    }
  }

  // ---- clean exits ----

  /** The container ended as it should. */
  predicate CleanExit(c: Container) { c.state == "exited" && c.exitCode == 0 && !c.oomKilled }

  function WithoutCleanExits(cts: seq<Container>): seq<Container> {
    if cts == [] then []
    else
      var c := cts[|cts| - 1];
      WithoutCleanExits(cts[..|cts| - 1]) + if CleanExit(c) then [] else [c]
  }

  lemma {:induction false} KeptExactly(cts: seq<Container>)
    ensures forall c :: c in WithoutCleanExits(cts) <==> c in cts && !CleanExit(c)
  {
    if cts != [] {
      var n := |cts| - 1;
      KeptExactly(cts[..n]);
      assert cts == cts[..n] + [cts[n]];
    }
  }

  lemma {:induction false} RecordsConcat(a: seq<Container>, b: seq<Container>)
    ensures CrashRecords(a + b) == CrashRecords(a) + CrashRecords(b)
  {
    if b == [] {
      assert a + b == a;
    } else {
      var n := |b| - 1;
      RecordsConcat(a, b[..n]);
      assert (a + b)[..|a + b| - 1] == a + b[..n];
    }
  }

  /** Clean exits leave no record, in any sample. */
  lemma {:induction false} CleanExitsLeaveNoRecord(cts: seq<Container>)
    ensures CrashRecords(WithoutCleanExits(cts)) == CrashRecords(cts)
  {
    if cts != [] {
      var n := |cts| - 1;
      var c, before := cts[n], WithoutCleanExits(cts[..n]);
      CleanExitsLeaveNoRecord(cts[..n]);
      if CleanExit(c) {
        assert before + [] == before && CrashRecords(cts[..n]) + [] == CrashRecords(cts[..n]);
      } else {
        RecordsConcat(before, [c]);
        assert [c][..0] == [];
      }
    }
  }

  function RunWithoutCleanExits(r: ServiceRun): ServiceRun { r.(cts := WithoutCleanExits(r.cts)) }

  function RunsWithoutCleanExits(runs: seq<ServiceRun>): seq<ServiceRun> {
    if runs == [] then []
    else RunsWithoutCleanExits(runs[..|runs| - 1]) + [RunWithoutCleanExits(runs[|runs| - 1])]
  }

  /** Deleting clean exits from any samples changes neither what a run stores, nor what it
      counts, nor the log of all crashes. */
  lemma {:induction false} CleanExitsDoNotCount(
      prev: seq<ExitEvent>, s: Option<ServiceState>, r: ServiceRun, cutoff: int, window: int)
    ensures Merged(prev, WithoutCleanExits(r.cts), cutoff) == Merged(prev, r.cts, cutoff)
    ensures CrashesSeen(s, RunWithoutCleanExits(r), window) == CrashesSeen(s, r, window)
  {
    CleanExitsLeaveNoRecord(r.cts);
  }

  lemma {:induction false} CleanExitsLeaveTheLog(runs: seq<ServiceRun>)
    ensures CrashLog(RunsWithoutCleanExits(runs)) == CrashLog(runs)
  {
    if runs != [] {
      var n := |runs| - 1;
      CleanExitsLeaveTheLog(runs[..n]);
      CleanExitsLeaveNoRecord(runs[n].cts);
      var rest := RunsWithoutCleanExits(runs);
      assert rest[..|rest| - 1] == RunsWithoutCleanExits(runs[..n]);
    }
  }

  /** The restart half looks at clean exits too: deleting them leaves the delta as it is, if
      and only if none of them is both above the baseline and above all the others. */
  lemma {:induction false} CleanExitsLeaveDeltaExactly(prev: Option<ServiceState>, r: ServiceRun)
    requires HasBaseline(true, false, prev, r.bootID)
    ensures RestartDelta(true, false, prev, RunWithoutCleanExits(r)) == RestartDelta(true, false, prev, r) <==>
            forall c :: c in r.cts && CleanExit(c) ==>
              || c.restartCount <= prev.value.lastRestartCount
              || exists k :: k in r.cts && !CleanExit(k) && c.restartCount <= k.restartCount
  {
    var base, rest := prev.value.lastRestartCount, WithoutCleanExits(r.cts);
    KeptExactly(r.cts);
    MaxRestartsExact(r.cts);
    MaxRestartsExact(rest);
    if forall c :: c in r.cts && CleanExit(c) ==>
         c.restartCount <= base || exists k :: k in r.cts && !CleanExit(k) && c.restartCount <= k.restartCount {
      if MaxRestarts(r.cts) > base {
        var c :| c in r.cts && c.restartCount == MaxRestarts(r.cts);
        if CleanExit(c) {
          var k :| k in r.cts && !CleanExit(k) && c.restartCount <= k.restartCount;
          assert k in rest;
        } else {
          assert c in rest;
        }
      }
    } else {
      var c :| c in r.cts && CleanExit(c) && c.restartCount > base
               && !exists k :: k in r.cts && !CleanExit(k) && c.restartCount <= k.restartCount;
      assert MaxRestarts(rest) < c.restartCount;
    }
  }

  lemma {:induction false} CleanExitsAreNotBlind(cts: seq<Container>)
    ensures UninspectedRunning(WithoutCleanExits(cts)) == UninspectedRunning(cts)
  {
    KeptExactly(cts);
    UninspectedExact(cts);
    UninspectedExact(WithoutCleanExits(cts));
  }

  lemma {:induction false} SameVerdict(a: seq<Container>, b: seq<Container>, crashes: nat, restarts: nat, limit: int)
    requires UninspectedRunning(a) == UninspectedRunning(b)
    ensures Verdict(a, crashes, restarts, limit) == Verdict(b, crashes, restarts, limit)
  {
  }

  lemma {:induction false} DeltaReaches(prev: Option<ServiceState>, r: ServiceRun,
      hadBaseline: bool, bootChanged: bool, limit: int)
    requires limit >= 1
    ensures RestartDelta(hadBaseline, bootChanged, prev, r) >= limit <==>
            && HasBaseline(hadBaseline, bootChanged, prev, r.bootID)
            && exists c :: c in r.cts && c.restartCount >= prev.value.lastRestartCount + limit
  {
    DeltaExactly(hadBaseline, bootChanged, prev, r);
  }

  lemma {:induction false} SameVerdictExactly(cts: seq<Container>, crashes: nat, a: nat, b: nat, limit: int)
    ensures Verdict(cts, crashes, a, limit) == Verdict(cts, crashes, b, limit) <==>
            || (UninspectedRunning(cts) && crashes == 0) || crashes >= limit || (a >= limit <==> b >= limit)
  {
  }

  /** No clean exit counts `limit` restarts above the baseline, or something else does. */
  predicate NotDecidedByCleanExits(prev: Option<ServiceState>, r: ServiceRun, limit: int)
    requires prev.Some?
  {
    || (forall c :: c in r.cts && CleanExit(c) ==> c.restartCount < prev.value.lastRestartCount + limit)
    || (exists c :: c in r.cts && !CleanExit(c) && c.restartCount >= prev.value.lastRestartCount + limit)
  }

  lemma {:induction false} CleanExitsLeaveReach(prev: Option<ServiceState>, r: ServiceRun,
      hadBaseline: bool, bootChanged: bool, limit: int)
    requires limit >= 1
    ensures (RestartDelta(hadBaseline, bootChanged, prev, RunWithoutCleanExits(r)) >= limit <==>
             RestartDelta(hadBaseline, bootChanged, prev, r) >= limit) <==>
            HasBaseline(hadBaseline, bootChanged, prev, r.bootID) ==> NotDecidedByCleanExits(prev, r, limit)
  {
    KeptExactly(r.cts);
    DeltaReaches(prev, r, hadBaseline, bootChanged, limit);
    DeltaReaches(prev, RunWithoutCleanExits(r), hadBaseline, bootChanged, limit);
  }

  /** Deleting clean exits leaves the verdict as it is, if and only if the verdict does not
      hang on the restarts, or those of the clean exits do not decide it: containers that
      ended as they should and never restarted do not touch it, however many they are. */
  lemma {:induction false} CleanExitsLeaveVerdictExactly(
      prev: Option<ServiceState>, r: ServiceRun, hadBaseline: bool, bootChanged: bool, window: int, limit: int)
    ensures var rest, crashes := RunWithoutCleanExits(r), |CrashesSeen(prev, r, window)|;
            Verdict(rest.cts, |CrashesSeen(prev, rest, window)|,
                    RestartDelta(hadBaseline, bootChanged, prev, rest), limit)
            == Verdict(r.cts, crashes, RestartDelta(hadBaseline, bootChanged, prev, r), limit)
            <==>
            || (UninspectedRunning(r.cts) && crashes == 0) || crashes >= limit
            || !HasBaseline(hadBaseline, bootChanged, prev, r.bootID) || NotDecidedByCleanExits(prev, r, limit)
  {
    var rest, crashes := RunWithoutCleanExits(r), |CrashesSeen(prev, r, window)|;
    var a := RestartDelta(hadBaseline, bootChanged, prev, rest);
    CleanExitsLeaveNoRecord(r.cts);
    CleanExitsAreNotBlind(r.cts);
    SameVerdict(rest.cts, r.cts, crashes, a, limit);
    SameVerdictExactly(r.cts, crashes, a, RestartDelta(hadBaseline, bootChanged, prev, r), limit);
    if limit >= 1 {
      CleanExitsLeaveReach(prev, r, hadBaseline, bootChanged, limit);
    }
  }

  /** The verdict that does hang on a clean exit: restarted five times and then ended with
      exit code 0, it makes its service BAD at the limit of 5, and OK without it. */
  lemma {:induction false} CleanExitDecides(c: Container)
    requires CleanExit(c) && c.restartCount == 5
    ensures var prev := Some(ServiceState(0, 0, [], 0, "boot"));
            var r := ServiceRun(0, true, [c], 1, "boot");
            && CrashesSeen(prev, r, 0) == {}
            && Verdict(r.cts, 0, RestartDelta(true, false, prev, r), 5) == BAD
            && Verdict([], 0, RestartDelta(true, false, prev, r.(cts := [])), 5) == OK
            && WithoutCleanExits(r.cts) == []
  {
    assert [c][..0] == [];
    assert CrashRecords([c]) == [];
    MaxRestartsExact([c]);
    assert c in [c];
  }

  // ---- the greatest ----

  lemma {:induction false} MaxInspectedExact(cts: seq<Container>)
    ensures MaxInspected(cts).None? <==> forall c :: c in cts ==> !c.inspected
    ensures MaxInspected(cts).Some? ==>
              && (forall c :: c in cts && c.inspected ==> c.restartCount <= MaxInspected(cts).value)
              && exists c :: c in cts && c.inspected && c.restartCount == MaxInspected(cts).value
  {
    if cts != [] {
      var n := |cts| - 1;
      MaxInspectedExact(cts[..n]);
      assert cts == cts[..n] + [cts[n]];
    }
  }

  lemma {:induction false} MaxOOMKillExact(cts: seq<Container>)
    ensures forall c :: c in cts && c.cgroup.health == OK ==> c.cgroup.oomKillCount <= MaxOOMKill(cts)
    ensures MaxOOMKill(cts) == 0 ||
            exists c :: c in cts && c.cgroup.health == OK && c.cgroup.oomKillCount == MaxOOMKill(cts)
  {
    if cts != [] {
      var n := |cts| - 1;
      MaxOOMKillExact(cts[..n]);
      assert cts == cts[..n] + [cts[n]];
    }
  }

  /** One container restarted `limit` times since the baseline makes a service BAD whose
      running containers could all be inspected, whatever its other containers did. */
  lemma {:induction false} RestartsAreBad(
      prev: Option<ServiceState>, r: ServiceRun, c: Container, window: int, limit: int)
    requires HasBaseline(true, false, prev, r.bootID) && limit >= 1
    requires c in r.cts && c.restartCount >= prev.value.lastRestartCount + limit
    requires forall k :: k in r.cts && k.state == "running" ==> k.inspected
    ensures Verdict(r.cts, |CrashesSeen(prev, r, window)|, RestartDelta(true, false, prev, r), limit) == BAD
  {
    DeltaExactly(true, false, prev, r);
    UninspectedExact(r.cts);
  }

  // ---- the last sight of a service ----

  predicate Sighted(r: ServiceRun) { r.dockerOK && r.cts != [] }

  /** Run i is the last that saw the service. */
  predicate LastSight(runs: seq<ServiceRun>, i: nat) {
    i < |runs| && Sighted(runs[i]) && forall j :: i < j < |runs| ==> !Sighted(runs[j])
  }

  lemma {:induction false} LastSightSnoc(runs: seq<ServiceRun>, i: nat)
    requires runs != []
    requires var n := |runs| - 1; if Sighted(runs[n]) then i == n else LastSight(runs[..n], i)
    ensures LastSight(runs, i)
  {
    var n := |runs| - 1;
    if !Sighted(runs[n]) {
      forall j | i < j < |runs| ensures !Sighted(runs[j]) {
        if j < n {
          assert !Sighted(runs[..n][j]);
        }
      }
    }
  }

  /** A record is of the last run that saw its service: of its boot, with its number, and
      with the greatest count of memory kills it read. */
  lemma {:induction false} RecordIsOfLastSight(states: seq<Option<ServiceState>>, runs: seq<ServiceRun>, window: int)
    returns (i: nat)
    requires Follows(states, runs, window) && states[|runs|].Some?
    ensures LastSight(runs, i)
    ensures var s := states[|runs|].value;
            && s.bootID == runs[i].bootID && s.lastSeenRun == runs[i].runID
            && (forall c :: c in runs[i].cts && c.cgroup.health == OK ==> c.cgroup.oomKillCount <= s.lastOOMKill)
  {
    var n := |runs| - 1;
    assert runs != [];
    if Sighted(runs[n]) {
      i := n;
      MaxOOMKillExact(runs[n].cts);
    } else {
      i := RecordIsOfLastSight(states[..n + 1], runs[..n], window);
    }
    LastSightSnoc(runs, i);
  }

  /** So the first run after a reboot reports no restarts, whatever its containers count. */
  lemma {:induction false} RebootHasNoDelta(states: seq<Option<ServiceState>>, runs: seq<ServiceRun>, window: int,
      r: ServiceRun, hadBaseline: bool, bootChanged: bool)
    requires Follows(states, runs, window)
    requires forall i :: 0 <= i < |runs| ==> runs[i].bootID != r.bootID
    ensures RestartDelta(hadBaseline, bootChanged, states[|runs|], r) == 0
  {
    if states[|runs|].Some? {
      var i := RecordIsOfLastSight(states, runs, window);
    }
  }

  // ---- order ----

  lemma {:induction false} SameMembers(a: seq<Container>, b: seq<Container>)
    requires multiset(a) == multiset(b)
    ensures forall c :: c in a <==> c in b
  {
    assert forall c :: c in a <==> c in multiset(a);
    assert forall c :: c in b <==> c in multiset(b);
  }

  lemma {:induction false} WindowOfMembers(p: seq<ExitEvent>, q: seq<ExitEvent>, cutoffUnix: int)
    requires forall e :: e in p <==> e in q
    ensures InWindow(p, cutoffUnix) == InWindow(q, cutoffUnix)
  {
  }

  lemma {:induction false} OrderLeavesRecords(a: seq<Container>, b: seq<Container>)
    requires multiset(a) == multiset(b)
    ensures forall e :: e in CrashRecords(a) <==> e in CrashRecords(b)
  {
    SameMembers(a, b);
    RecordsExact(a);
    RecordsExact(b);
  }

  lemma {:induction false} OrderLeavesCrashes(
      prev: Option<ServiceState>, r: ServiceRun, cts: seq<Container>, window: int)
    requires multiset(r.cts) == multiset(cts)
    ensures CrashesSeen(prev, r.(cts := cts), window) == CrashesSeen(prev, r, window)
  {
    OrderLeavesRecords(r.cts, cts);
    WindowOfMembers(CrashRecords(r.cts), CrashRecords(cts), Unix(r.now - window));
  }

  lemma {:induction false} OrderLeavesDelta(
      prev: Option<ServiceState>, r: ServiceRun, cts: seq<Container>, hadBaseline: bool, bootChanged: bool)
    requires multiset(r.cts) == multiset(cts)
    ensures RestartDelta(hadBaseline, bootChanged, prev, r.(cts := cts))
            == RestartDelta(hadBaseline, bootChanged, prev, r)
  {
    SameMembers(r.cts, cts);
    MaxRestartsExact(r.cts);
    MaxRestartsExact(cts);
  }

  lemma {:induction false} OrderLeavesBlindness(a: seq<Container>, b: seq<Container>)
    requires multiset(a) == multiset(b)
    ensures UninspectedRunning(a) == UninspectedRunning(b)
  {
    SameMembers(a, b);
    UninspectedExact(a);
    UninspectedExact(b);
  }

  /** The order of the containers in the sample changes neither the crashes seen, nor the
      restarts, nor the verdict. */
  lemma {:induction false} OrderIrrelevant(prev: Option<ServiceState>, r: ServiceRun, cts: seq<Container>,
      hadBaseline: bool, bootChanged: bool, window: int, limit: int)
    requires multiset(r.cts) == multiset(cts)
    ensures var q := r.(cts := cts);
            && CrashesSeen(prev, q, window) == CrashesSeen(prev, r, window)
            && RestartDelta(hadBaseline, bootChanged, prev, q) == RestartDelta(hadBaseline, bootChanged, prev, r)
            && Verdict(cts, |CrashesSeen(prev, q, window)|, RestartDelta(hadBaseline, bootChanged, prev, q), limit)
               == Verdict(r.cts, |CrashesSeen(prev, r, window)|, RestartDelta(hadBaseline, bootChanged, prev, r), limit)
  {
    OrderLeavesCrashes(prev, r, cts, window);
    OrderLeavesDelta(prev, r, cts, hadBaseline, bootChanged);
    OrderLeavesBlindness(r.cts, cts);
    SameVerdict(cts, r.cts, |CrashesSeen(prev, r, window)|, RestartDelta(hadBaseline, bootChanged, prev, r), limit);
  }
}

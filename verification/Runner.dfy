/** One timer firing end to end, in place: load, collect, apply the exceptions, advance,
    update the baselines, prune, save, deliver. The sample and what the checks say of it
    are inputs; so are the outcome of the save and the dry-run switch. */
module Runners {
  import opened Types
  import opened AlertMap
  import opened Snapshots
  import opened Delivery
  import opened Protocol
  import Baselines
  import Exceptions
  import Memories

  class Runner {
    /** The state file, replaced atomically. */
    var disk: Durable
    /** Everything posted so far. */
    var log: seq<Post>

    ghost predicate Valid()
      reads this
    {
      Baselines.RingsBounded(disk.memory)
    }

    constructor ()
      ensures Valid() && disk == EMPTY && log == []
    {
      disk, log := EMPTY, [];
    }

    /** The baselines of a run, the alerts apart; `m` is the memory before it. */
    static method RecordBaselines(snap: Snapshot, table: Baselines.BaselineTable, sample: Baselines.Sample,
        window: int, runID: int, ghost m: Baselines.Memory)
      requires snap.Valid() && table.Valid() && snap.Repr() !! table.Repr() && table.View() == m
      modifies snap`runCount, table, table.rings.Values
      ensures snap.Valid() && snap.runCount == runID && snap.Repr() !! table.Repr()
      ensures snap.alerts == old(snap.alerts) && snap.View() == old(snap.View())
      ensures table.Valid() && Baselines.Remembers(m, sample, window, table.View())
    {
      ghost var alerts := snap.View();
      snap.runCount := runID;
      table.UpdateBaselines(sample, window);
      snap.ViewIs(alerts);
    }

    /** Everything between load and save: advance, update the baselines, prune; `was` is
        what was loaded. */
    static method Evolve(cfg: Config, snap: Snapshot, table: Baselines.BaselineTable, obs: seq<Observation>,
        sample: Baselines.Sample, env: Env, ghost was: Durable)
      returns (decisions: seq<Decision>, order: seq<string>)
      requires snap.Valid() && table.Valid() && snap.Repr() !! table.Repr()
      requires snap.View() == was.alerts && table.View() == was.memory
      modifies snap, snap.alerts.Values, table, table.rings.Values
      ensures snap.Valid() && table.Valid() && snap.runCount == env.runID
      ensures Executes(cfg, was.alerts, Run(obs, env, order), Advanced(snap.View(), decisions))
      ensures Baselines.Remembers(was.memory, sample, cfg.CrashWindow(), table.View())
    {
      decisions, order := snap.Advance(cfg, obs, env);
      ghost var mid := Advanced(snap.View(), decisions);
      assert table.View() == was.memory;
      RecordBaselines(snap, table, sample, cfg.CrashWindow(), env.runID, was.memory);
      ghost var after := table.View();
      snap.PrunePendingAlerts(env.runID);
      PruneCompletes(cfg, was.alerts, Run(obs, env, order), mid);
      assert table.View() == after;
    }

    /** Puts a state file into fresh objects. */
    static method Load(stored: Durable) returns (snap: Snapshot, table: Baselines.BaselineTable)
      requires Baselines.RingsBounded(stored.memory)
      ensures snap.Valid() && table.Valid() && snap.Repr() !! table.Repr()
      ensures fresh(snap.Repr()) && fresh(table.Repr())
      ensures Durable(snap.runCount, snap.View(), table.View()) == stored
    {
      snap := new Snapshot(stored.runCount, stored.alerts);
      table := new Baselines.BaselineTable(stored.memory);
    }

    static method Encode(snap: Snapshot, table: Baselines.BaselineTable) returns (stored: Durable)
      ensures stored == Durable(snap.runCount, snap.View(), table.View())
    {
      var alerts := snap.Encode();
      var memory := table.Encode();
      stored := Durable(snap.runCount, alerts, memory);
    }

    /** From the state file to what would be saved, and what would be sent. */
    static method Prepare(cfg: Config, was: Durable, obs: seq<Observation>, sample: Baselines.Sample, env: Env)
      returns (decisions: seq<Decision>, order: seq<string>, stored: Durable)
      requires Baselines.RingsBounded(was.memory) && sample.runID == env.runID == was.runCount + 1
      requires sample.now == env.now
      ensures Evaluates(cfg, was, Evaluated(Run(obs, env, order), sample, stored, PostsOf(cfg, decisions)))
    {
      var snap, table := Load(was);
      decisions, order := Evolve(cfg, snap, table, obs, sample, env, was);
      stored := Encode(snap, table);
      EvaluateInParts(cfg, was, Run(obs, env, order), sample, Advanced(stored.alerts, decisions), stored.memory);
    }

    method Deliver(cfg: Config, decisions: seq<Decision>)
      modifies this`log
      ensures log == old(log) + PostsOf(cfg, decisions)
    {
      for i := 0 to |decisions|
        invariant log == old(log) + PostsOf(cfg, decisions[..i])
      {
        assert decisions[..i + 1][..i] == decisions[..i];
        ghost var before := log;
        var d := decisions[i];
        for j := 0 to |d.targets|
          invariant log == before + PostsTo(cfg, d.alert, d.targets[..j])
        {
          assert d.targets[..j + 1][..j] == d.targets[..j];
          var name := d.targets[j];
          if name !in cfg.targets || cfg.targets[name].url == "" {
            continue;
          }
          log := log + [Post(d.alert, name)];
        }
        assert d.targets[..|d.targets|] == d.targets;
      }
      assert decisions[..|decisions|] == decisions;
    }

    /** A run either commits, and then exactly its decisions are posted after the save, or
        it changes nothing outside the process. `taken` is the sample collected and `raw`
        what the checks made of it. */
    method RunOnce(cfg: Config, rules: seq<Exceptions.Rule>, taken: Baselines.Sample, raw: seq<Observation>,
        host: string, dryRun: bool, saveOK: bool)
      returns (decisions: seq<Decision>, order: seq<string>, stored: Durable)
      requires Valid()
      modifies this
      ensures Valid()
      ensures var runID := old(disk).runCount + 1;
              var run := Run(Exceptions.Transformed(rules, raw), Env(taken.now, host, runID), order);
              Evaluates(cfg, old(disk), Evaluated(run, taken.(runID := runID), stored, PostsOf(cfg, decisions)))
      ensures disk == if dryRun || !saveOK then old(disk) else stored
      ensures log == if dryRun || !saveOK then old(log) else old(log) + PostsOf(cfg, decisions)
    {
      var sample := taken.(runID := disk.runCount + 1);
      var obs := Exceptions.Transform(rules, raw);
      decisions, order, stored := Prepare(cfg, disk, obs, sample, Env(sample.now, host, sample.runID));
      Baselines.ReadingsKeepBound(disk.memory, sample.disks, sample.now);
      if dryRun || !saveOK {
        return;
      }
      disk := stored;
      Deliver(cfg, decisions);
    }
  }

  /** Every state file that any sequence of runs and crashes can leave is one that a run
      can load. */
  lemma {:induction false} AlwaysLoadable(cfg: Config, trace: seq<Sys>)
    requires Behaviour(cfg, trace)
    ensures Baselines.RingsBounded(trace[|trace| - 1].disk.memory)
  {
    var s := trace[|trace| - 1];
    DurableIsRecorded(cfg, trace);
    Memories.RecordedRingsBounded(s.samples, s.memories, cfg.CrashWindow());
  }

  /** Consecutive states of the protocol. */
  ghost predicate Path(cfg: Config, path: seq<Sys>, s: Sys, t: Sys) {
    && path != [] && path[0] == s && path[|path| - 1] == t
    && forall i :: 0 <= i < |path| - 1 ==> Next(cfg, path[i], path[i + 1])
  }

  lemma {:induction false} PathSnoc(cfg: Config, path: seq<Sys>, s: Sys, t: Sys, u: Sys)
    requires Path(cfg, path, s, t) && Next(cfg, t, u)
    ensures Path(cfg, path + [u], s, u)
  {
  }

  lemma {:induction false} PostPath(cfg: Config, path: seq<Sys>, s: Sys, t: Sys) returns (longer: seq<Sys>, u: Sys)
    requires Path(cfg, path, s, t) && t.phase.Saved? && t.posted != []
    ensures Path(cfg, longer, s, u)
    ensures u.phase == Saved([]) && u.disk == t.disk && u.log == t.log + t.phase.unsent
    ensures u.committed == t.committed && u.samples == t.samples
    decreases |t.phase.unsent|
  {
    if t.phase.unsent == [] {
      longer, u := path, t;
    } else {
      var n := |t.posted| - 1;
      var v := t.(phase := Saved(t.phase.unsent[1..]), log := t.log + [t.phase.unsent[0]],
                  posted := t.posted[n := t.posted[n] + 1]);
      assert PostStep(t, v);
      PathSnoc(cfg, path, s, t, v);
      longer, u := PostPath(cfg, path + [v], s, v);
      assert [t.phase.unsent[0]] + t.phase.unsent[1..] == t.phase.unsent;
    }
  }

  /** What a committing `RunOnce` does is a path of the crash-prone protocol, so every
      protocol result speaks about it. */
  lemma {:induction false} RunOnceIsAPath(cfg: Config, s: Sys, p: Phase) returns (path: seq<Sys>, t: Sys)
    requires s.phase == Idle && p.Evaluated? && Evaluates(cfg, s.disk, p)
    ensures Path(cfg, path, s, t) && t.phase == Idle
    ensures t.disk == p.next && t.log == s.log + p.posts && t.committed == s.committed + [p.run]
    ensures t.samples == s.samples + [p.sample]
  {
    var a, b := s.(phase := Loaded(s.disk)), s.(phase := p);
    var c := Sys(p.next, Saved(p.posts), s.log, s.committed + [p.run], s.samples + [p.sample],
                 s.memories + [p.next.memory], s.posted + [0]);
    assert LoadStep(s, a) && EvaluateStep(cfg, a, b) && SaveStep(b, c);
    PathSnoc(cfg, [s], s, s, a);
    PathSnoc(cfg, [s] + [a], s, a, b);
    PathSnoc(cfg, [s] + [a] + [b], s, b, c);
    var u;
    path, u := PostPath(cfg, [s] + [a] + [b] + [c], s, c);
    t := u.(phase := Idle);
    assert EndStep(u, t);
    PathSnoc(cfg, path, s, u, t);
    path := path + [t];
  }
}

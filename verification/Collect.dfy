/** The container facts that the checks read. */
module Collect {
  import opened Types

  datatype Cgroup = Cgroup(health: Health, workingSet: int, oomKillCount: nat)

  datatype Container = Container(
    id: string,
    name: string,
    image: string,
    labels: map<string, string>,
    state: string,
    memoryLimit: int,
    oomKilled: bool,
    exitCode: int,
    startedAt: int,
    finishedAt: int,
    restartCount: nat,
    inspected: bool,
    cgroup: Cgroup)
  {
    predicate Running() { state == "running" }

    /** The swarm or compose service, else the name: stable across reschedules. */
    function ServiceKey(): string {
      var swarm := Label("com.docker.swarm.service.name");
      var project := Label("com.docker.compose.project");
      var service := Label("com.docker.compose.service");
      if swarm != "" then swarm
      else if service != "" then (if project != "" then project + "_" + service else service)
      else name
    }

    function ServiceName(): string {
      var swarm := Label("com.docker.swarm.service.name");
      var service := Label("com.docker.compose.service");
      if swarm != "" then swarm else if service != "" then service else name
    }

    function Label(key: string): string {
      if key in labels then labels[key] else ""
    }

    /** A non-zero or OOM-killed exit; clean completions are not crashes. */
    predicate CrashExit() {
      state == "exited" && inspected && finishedAt != ZERO_TIME && (exitCode != 0 || oomKilled)
    }
  }

  /** What groups containers into a service, by the labels that are there: Swarm's service
      name; else the compose service, after its project if that is given; else the
      container's own name. An empty label counts as none. */
  lemma {:induction false} ServiceKeyExact(c: Container)
    ensures var swarm, project, service := "com.docker.swarm.service.name", "com.docker.compose.project",
                                           "com.docker.compose.service";
            && (swarm in c.labels && c.labels[swarm] != "" ==>
                  c.ServiceKey() == c.labels[swarm] && c.ServiceName() == c.labels[swarm])
            && (!(swarm in c.labels && c.labels[swarm] != "") && service in c.labels && c.labels[service] != "" ==>
                  && c.ServiceName() == c.labels[service]
                  && c.ServiceKey() == if project in c.labels && c.labels[project] != ""
                                       then c.labels[project] + "_" + c.labels[service] else c.labels[service])
            && (!(swarm in c.labels && c.labels[swarm] != "")
                && !(service in c.labels && c.labels[service] != "") ==>
                  c.ServiceKey() == c.name && c.ServiceName() == c.name)
  {
  }
}

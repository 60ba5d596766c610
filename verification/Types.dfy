/** Values shared by every stage: tri-state health, tiers, observations and the
    part of the configuration the alert machine reads. */
module Types {

  datatype Option<+T> = None | Some(value: T)

  /** "Could not measure" (UNKNOWN) is a verdict of its own, never a kind of OK. */
  datatype Health = OK | BAD | UNKNOWN

  /** 0 = WARN, 1 = ALERT, 2 = PAGE. */
  type Tier = t: int | 0 <= t <= 2

  const WARN: Tier := 0
  const ALERT: Tier := 1
  const PAGE: Tier := 2

  function Min(a: int, b: int): int { if a < b then a else b }

  /** What one check reports about one scope in one run. */
  datatype Observation = Observation(
    check: string,
    scope: string,
    health: Health,
    tier: Tier,
    title: string,
    measured: string,
    threshold: string,
    fix: string,
    measuredValue: real,
    containerName: string,
    serviceName: string,
    image: string,
    labels: map<string, string>,
    suppressed: bool,
    suppressedReason: string)
  {
    /** Identifies the alert across runs. */
    function Key(): string { check + ":" + scope }

    predicate Measured() { health != UNKNOWN }
  }

  /** Instants are nanoseconds; 0 stands for Go's zero time. */
  const ZERO_TIME: int := 0

  /** What one run injects into every transition. */
  datatype Env = Env(now: int, host: string, runID: int)

  datatype TargetConfig = TargetConfig(url: string, minTier: Option<Tier>)

  datatype CheckOverrides = CheckOverrides(flapSamples: Option<int>, cooldown: Option<int>)

  datatype Config = Config(
    targets: map<string, TargetConfig>,
    routeWarn: seq<string>,
    routeAlert: seq<string>,
    routePage: seq<string>,
    flapWarn: int,
    flapAlert: int,
    flapPage: int,
    resolveSamples: int,
    cooldownWarn: int,
    cooldownAlert: int,
    cooldownPage: int,
    overrides: map<string, CheckOverrides>,
    crashLoopWindow: int)
  {
    function TargetsFor(t: Tier): seq<string> {
      if t == WARN then routeWarn else if t == ALERT then routeAlert else routePage
    }

    function FlapSamples(t: Tier): int {
      if t == WARN then flapWarn else if t == ALERT then flapAlert else flapPage
    }

    function Cooldown(t: Tier): int {
      if t == WARN then cooldownWarn else if t == ALERT then cooldownAlert else cooldownPage
    }

    /** How long crashes are remembered: ten minutes unless configured. */
    function CrashWindow(): int {
      if crashLoopWindow > 0 then crashLoopWindow else 600_000_000_000
    }

    /** The alert-hygiene part of what config validation guarantees. */
    ghost predicate Valid() {
      && resolveSamples >= 1
      && (forall t: Tier :: FlapSamples(t) >= 1 && Cooldown(t) >= 0)
      && (forall c :: c in overrides ==>
            && (overrides[c].flapSamples.Some? ==> overrides[c].flapSamples.value >= 1)
            && (overrides[c].cooldown.Some? ==> overrides[c].cooldown.value >= 0))
    }
  }

  const TRACKED_CHECKS: set<string> := {
    "mem_pressure", "committed_as", "declared_overcommit", "unbounded_mem",
    "disk_fill", "disk_inodes", "swap_thrash", "crashloop"
  }

  function OverridesFor(cfg: Config, check: string): CheckOverrides {
    if check in TRACKED_CHECKS && check in cfg.overrides
    then cfg.overrides[check]
    else CheckOverrides(None, None)
  }

  function FlapSamplesFor(cfg: Config, check: string, tier: Tier): int {
    var ov := OverridesFor(cfg, check);
    if ov.flapSamples.Some? then ov.flapSamples.value else cfg.FlapSamples(tier)
  }

  function CooldownFor(cfg: Config, check: string, tier: Tier): int {
    var ov := OverridesFor(cfg, check);
    if ov.cooldown.Some? then ov.cooldown.value else cfg.Cooldown(tier)
  }

  datatype Kind = FIRE | ESCALATE | REMINDER | RESOLVED | DEGRADED

  datatype Alert = Alert(
    tier: Tier, kind: Kind, title: string, host: string, scope: string, measured: string,
    threshold: string, fix: string, key: string, check: string, ts: int, runID: int)

  datatype Decision = Decision(alert: Alert, targets: seq<string>)
}

/** Tier routing with min_tier floors, and the order-preserving union that
    remembers which channels an episode has notified. */
module Route {
  import opened Types

  /** A channel takes an event when it exists and the tier is not below its floor. */
  predicate Admits(cfg: Config, name: string, tier: Tier) {
    name in cfg.targets &&
    var min := cfg.targets[name].minTier;
    min.Some? ==> tier >= min.value
  }

  function Admitted(cfg: Config, names: seq<string>, tier: Tier): seq<string> {
    if names == [] then []
    else
      var n := |names| - 1;
      Admitted(cfg, names[..n], tier) + if Admits(cfg, names[n], tier) then [names[n]] else []
  }

  function RouteTargets(cfg: Config, tier: Tier): seq<string> {
    Admitted(cfg, cfg.TargetsFor(tier), tier)
  }

  method ComputeRouteTargets(cfg: Config, tier: Tier) returns (out: seq<string>)
    ensures out == RouteTargets(cfg, tier)
  {
    out := [];
    var names := cfg.TargetsFor(tier);
    for i := 0 to |names|
      invariant out == Admitted(cfg, names[..i], tier)
    {
      assert names[..i + 1][..i] == names[..i];
      if names[i] !in cfg.targets {
        continue;
      }
      var min := cfg.targets[names[i]].minTier;
      if min.Some? && tier < min.value {
        continue;
      }
      out := out + [names[i]];
    }
    assert names[..|names|] == names;
  }

  /** Routing is exact: a channel is routed iff the tier's table lists it and its
      floor lets the tier through. */
  lemma {:induction false} AdmittedExact(cfg: Config, names: seq<string>, tier: Tier)
    ensures forall n :: n in Admitted(cfg, names, tier) <==> n in names && Admits(cfg, n, tier)
  {
    if names != [] {
      var k := |names| - 1;
      AdmittedExact(cfg, names[..k], tier);
      assert names == names[..k] + [names[k]];
    }
  }

  /** The same in the configuration's own fields: the table of the tier, the targets and
      their floors. */
  lemma {:induction false} RoutedExactly(cfg: Config, tier: Tier, n: string)
    ensures n in RouteTargets(cfg, tier) <==>
            && n in (match tier case 0 => cfg.routeWarn case 1 => cfg.routeAlert case 2 => cfg.routePage)
            && n in cfg.targets
            && (cfg.targets[n].minTier.Some? ==> cfg.targets[n].minTier.value <= tier)
  {
    AdmittedExact(cfg, cfg.TargetsFor(tier), tier);
  }

  /** Routing works name by name: it keeps order and repetitions. */
  lemma {:induction false} AdmittedConcat(cfg: Config, a: seq<string>, b: seq<string>, tier: Tier)
    ensures Admitted(cfg, a + b, tier) == Admitted(cfg, a, tier) + Admitted(cfg, b, tier)
  {
    if b == [] {
      assert a + b == a;
    } else {
      var n := |b| - 1;
      AdmittedConcat(cfg, a, b[..n], tier);
      assert (a + b)[..|a + b| - 1] == a + b[..n];
    }
  }

  function Union(existing: seq<string>, add: seq<string>): seq<string> {
    if add == [] then existing
    else
      var n := |add| - 1;
      var u := Union(existing, add[..n]);
      if add[n] in u then u else u + [add[n]]
  }

  method UnionTargets(existing: seq<string>, add: seq<string>) returns (out: seq<string>)
    ensures out == Union(existing, add)
  {
    var seen := {};
    for i := 0 to |existing|
      invariant seen == set n | n in existing[..i]
    {
      assert existing[..i + 1] == existing[..i] + [existing[i]];
      seen := seen + {existing[i]};
    }
    assert existing[..|existing|] == existing;
    out := existing;
    for i := 0 to |add|
      invariant out == Union(existing, add[..i])
      invariant seen == set n | n in out
    {
      assert add[..i + 1][..i] == add[..i];
      if add[i] !in seen {
        out := out + [add[i]];
        seen := seen + {add[i]};
      }
    }
    assert add[..|add|] == add;
  }

  /** The distinct names of `s`, each at its first occurrence. */
  function Distinct(s: seq<string>): seq<string> { Union([], s) }

  lemma {:induction false} UnionConcat(e: seq<string>, a: seq<string>, b: seq<string>)
    ensures Union(e, a + b) == Union(Union(e, a), b)
  {
    if b == [] {
      assert a + b == a;
    } else {
      var n := |b| - 1;
      assert (a + b)[..|a + b| - 1] == a + b[..n];
      UnionConcat(e, a, b[..n]);
    }
  }

  predicate NoDuplicates(s: seq<string>) {
    forall i, j :: 0 <= i < j < |s| ==> s[i] != s[j]
  }

  function FirstIndex(s: seq<string>, x: string): (i: nat)
    requires x in s
    ensures i < |s| && s[i] == x && x !in s[..i]
  {
    if s[0] == x then 0 else 1 + FirstIndex(s[1..], x)
  }

  lemma {:induction false} FirstIndexUnique(s: seq<string>, x: string, i: nat)
    requires i < |s| && s[i] == x && x !in s[..i]
    ensures FirstIndex(s, x) == i
  {
    if i > 0 {
      assert s[..i][0] == s[0];
      forall y | y in s[1..][..i - 1]
        ensures y in s[..i]
      {
        var j :| 0 <= j < i - 1 && s[1..][..i - 1][j] == y;
        assert s[..i][j + 1] == y;
      }
      FirstIndexUnique(s[1..], x, i - 1);
    }
  }

  lemma {:induction false} FirstIndexAppend(s: seq<string>, t: seq<string>, x: string)
    requires x in s
    ensures x in s + t && FirstIndex(s + t, x) == FirstIndex(s, x)
  {
    var i := FirstIndex(s, x);
    assert (s + t)[..i] == s[..i] && (s + t)[i] == x;
    FirstIndexUnique(s + t, x, i);
  }

  /** Distinct keeps exactly the names, once each, in order of first occurrence. */
  lemma {:induction false} DistinctExact(s: seq<string>)
    ensures NoDuplicates(Distinct(s))
    ensures forall x :: x in Distinct(s) <==> x in s
    ensures forall i, j :: 0 <= i < j < |Distinct(s)| ==>
              FirstIndex(s, Distinct(s)[i]) < FirstIndex(s, Distinct(s)[j])
  {
    if s != [] {
      var n := |s| - 1;
      var p := s[..n];
      DistinctExact(p);
      assert s == p + [s[n]];
      var d := Distinct(s);
      forall i, j | 0 <= i < j < |d|
        ensures FirstIndex(s, d[i]) < FirstIndex(s, d[j])
      {
        FirstIndexAppend(p, [s[n]], d[i]);
        if j < |Distinct(p)| {
          FirstIndexAppend(p, [s[n]], d[j]);
        } else {
          FirstIndexUnique(s, d[j], n);
        }
      }
    }
  }
}

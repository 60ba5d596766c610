/** The declared memory budget: an early-exit accumulation over containers that must not
    depend on their order. */
module Budget {
  import opened Types
  import opened Collect
  import opened Exceptions

  predicate Counted(rules: seq<Rule>, c: Container) {
    c.Running() && !ExcludedFromBudget(rules, c)
  }

  /** A declared limit counts as declared; an unbounded container counts its working set
      where that is known, and never less than the floor. */
  function Share(floor: int, c: Container): int {
    if c.memoryLimit > 0 then c.memoryLimit
    else if c.cgroup.health == OK && c.cgroup.workingSet > floor then c.cgroup.workingSet
    else floor
  }

  function Total(rules: seq<Rule>, floor: int, cts: seq<Container>): int {
    if cts == [] then 0
    else
      var c := cts[|cts| - 1];
      Total(rules, floor, cts[..|cts| - 1]) + if Counted(rules, c) then Share(floor, c) else 0
  }

  predicate Incomplete(rules: seq<Rule>, cts: seq<Container>) {
    exists c :: c in cts && Counted(rules, c) && !c.inspected
  }

  function Usable(memTotalKB: nat, reservePct: real): int {
    (memTotalKB as real * 1024.0 * (1.0 - reservePct / 100.0)).Floor
  }

  datatype Inputs = Inputs(memOK: bool, dockerOK: bool, memTotalKB: nat, reservePct: real, floor: int)
  {
    predicate Valid() { 0.0 <= reservePct < 100.0 && floor >= 0 }
  }

  /** The verdict in closed form. */
  function Verdict(rules: seq<Rule>, inp: Inputs, cts: seq<Container>): Health {
    if !inp.memOK || !inp.dockerOK || Incomplete(rules, cts) then UNKNOWN
    else if Total(rules, inp.floor, cts) > Usable(inp.memTotalKB, inp.reservePct) then BAD
    else OK
  }

  method Evaluate(rules: seq<Rule>, inp: Inputs, cts: seq<Container>) returns (v: Health)
    ensures v == Verdict(rules, inp, cts)
    ensures v == UNKNOWN <==>
            || !inp.memOK || !inp.dockerOK
            || exists c :: c in cts && c.state == "running" && !ExcludedFromBudget(rules, c) && !c.inspected
  {
    if !inp.memOK {
      return UNKNOWN;
    }
    if !inp.dockerOK {
      return UNKNOWN;
    }
    var declared, unbounded := 0, 0;
    for i := 0 to |cts|
      invariant declared == Total(rules, inp.floor, cts[..i])
      invariant forall k :: 0 <= k < i && Counted(rules, cts[k]) ==> cts[k].inspected
    {
      assert cts[..i + 1][..i] == cts[..i];
      var ct := cts[i];
      if !ct.Running() {
        continue;
      }
      if ExcludedFromBudget(rules, ct) {
        continue;
      }
      if !ct.inspected {
        assert ct in cts && Counted(rules, ct);
        return UNKNOWN;
      }
      if ct.memoryLimit > 0 {
        declared := declared + ct.memoryLimit;
        continue;
      }
      unbounded := unbounded + 1;
      var hr := inp.floor;
      if ct.cgroup.health == OK && ct.cgroup.workingSet > inp.floor {
        hr := ct.cgroup.workingSet;
      }
      declared := declared + hr;
    }
    assert cts[..|cts|] == cts;
    if declared > Usable(inp.memTotalKB, inp.reservePct) {
      return BAD;
    }
    return OK;
  }

  lemma {:induction false} TotalConcat(rules: seq<Rule>, floor: int, a: seq<Container>, b: seq<Container>)
    ensures Total(rules, floor, a + b) == Total(rules, floor, a) + Total(rules, floor, b)
  {
    if b == [] {
      assert a + b == a;
    } else {
      var n := |b| - 1;
      TotalConcat(rules, floor, a, b[..n]);
      assert (a + b)[..|a + b| - 1] == a + b[..n];
    }
  }

  lemma {:induction false} TotalOne(rules: seq<Rule>, floor: int, c: Container)
    ensures Total(rules, floor, [c]) == if Counted(rules, c) then Share(floor, c) else 0
  {
    assert [c][..0] == [];
  }

  // ---- what is counted, and against what ----

  /** One more container, wherever it is listed, adds its limit, or else the headroom it is
      owed, if it is running and not excluded; and no containers add up to nothing. */
  lemma {:induction false} OneMoreContainer(
      rules: seq<Rule>, floor: int, a: seq<Container>, c: Container, b: seq<Container>)
    ensures Total(rules, floor, []) == 0
    ensures Total(rules, floor, a + [c] + b) - Total(rules, floor, a + b)
            == if c.state != "running" || ExcludedFromBudget(rules, c) then 0
               else if c.memoryLimit > 0 then c.memoryLimit
               else if c.cgroup.health != OK then floor
               else if c.cgroup.workingSet >= floor then c.cgroup.workingSet else floor
  {
    TotalConcat(rules, floor, a + [c], b);
    TotalConcat(rules, floor, a, [c]);
    TotalConcat(rules, floor, a, b);
    TotalOne(rules, floor, c);
  }

  lemma {:induction false} ExceedsRoundedDown(n: int, x: real)
    ensures n > x.Floor <==> n as real > x
  {
  }

  lemma {:induction false} Percent(x: real, p: real)
    ensures x * (1.0 - p / 100.0) * 100.0 == x * (100.0 - p)
  {
    assert (1.0 - p / 100.0) * 100.0 == 100.0 - p;
    assert x * (1.0 - p / 100.0) * 100.0 == x * ((1.0 - p / 100.0) * 100.0);
  }

  /** What may be used is the memory less the reserve, rounded down to whole bytes. */
  lemma {:induction false} UsableExactly(memTotalKB: nat, reservePct: real)
    ensures var u := Usable(memTotalKB, reservePct) as real;
            u * 100.0 <= memTotalKB as real * 1024.0 * (100.0 - reservePct) < (u + 1.0) * 100.0
  {
    Percent(memTotalKB as real * 1024.0, reservePct);
  }

  /** And rounding down never decides: what was declared is too much if and only if, as a
      percentage of all memory, it is more than the reserve leaves. */
  lemma {:induction false} OverBudgetExactly(rules: seq<Rule>, inp: Inputs, cts: seq<Container>)
    ensures Verdict(rules, inp, cts) == BAD <==>
            && Verdict(rules, inp, cts) != UNKNOWN
            && Total(rules, inp.floor, cts) as real * 100.0
               > inp.memTotalKB as real * 1024.0 * (100.0 - inp.reservePct)
  {
    var x := inp.memTotalKB as real * 1024.0;
    Percent(x, inp.reservePct);
    ExceedsRoundedDown(Total(rules, inp.floor, cts), x * (1.0 - inp.reservePct / 100.0));
  }

  // ---- order ----

  lemma {:induction false} Without(b: seq<Container>, i: nat)
    requires i < |b|
    ensures b == b[..i] + ([b[i]] + b[i + 1..])
    ensures multiset(b) == multiset(b[..i] + b[i + 1..]) + multiset{b[i]}
  {
    var x, y := b[..i], b[i + 1..];
    assert b == x + ([b[i]] + y);
    assert multiset([b[i]] + y) == multiset{b[i]} + multiset(y);
  }

  lemma {:induction false} Cancel(p: multiset<Container>, q: multiset<Container>, c: Container)
    requires p + multiset{c} == q + multiset{c}
    ensures p == q
  {
    assert p == p + multiset{c} - multiset{c};
    assert q == q + multiset{c} - multiset{c};
  }

  lemma {:induction false} RemoveOne(a: seq<Container>, b: seq<Container>) returns (i: nat)
    requires a != [] && multiset(a) == multiset(b)
    ensures i < |b| && b[i] == a[|a| - 1]
    ensures b == b[..i] + ([b[i]] + b[i + 1..])
    ensures multiset(b[..i] + b[i + 1..]) == multiset(a[..|a| - 1])
  {
    var n := |a| - 1;
    var c := a[n];
    assert c in multiset(b);
    i :| 0 <= i < |b| && b[i] == c;
    Without(b, i);
    Without(a, n);
    assert a[..n] + a[n + 1..] == a[..n];
    Cancel(multiset(b[..i] + b[i + 1..]), multiset(a[..n]), c);
  }

  lemma {:induction false} TotalPermutes(rules: seq<Rule>, floor: int, a: seq<Container>, b: seq<Container>)
    requires multiset(a) == multiset(b)
    ensures Total(rules, floor, a) == Total(rules, floor, b)
    decreases |a|
  {
    if a == [] {
      assert |multiset(b)| == 0;
    } else {
      var i := RemoveOne(a, b);
      var x, y, c := b[..i], b[i + 1..], b[i];
      TotalPermutes(rules, floor, a[..|a| - 1], x + y);
      TotalConcat(rules, floor, x, [c] + y);
      TotalConcat(rules, floor, [c], y);
      TotalConcat(rules, floor, x, y);
      TotalOne(rules, floor, c);
    }
  }

  /** The verdict is a function of the multiset of containers: no enumeration order and
      no early exit can change it. */
  lemma {:induction false} OrderIrrelevant(rules: seq<Rule>, inp: Inputs, a: seq<Container>, b: seq<Container>)
    requires multiset(a) == multiset(b)
    ensures Verdict(rules, inp, a) == Verdict(rules, inp, b)
  {
    TotalPermutes(rules, inp.floor, a, b);
    assert forall c :: c in a <==> c in multiset(a);
    assert forall c :: c in b <==> c in multiset(b);
  }

  lemma {:induction false} TotalNonNegative(rules: seq<Rule>, floor: int, cts: seq<Container>)
    requires floor >= 0
    ensures Total(rules, floor, cts) >= 0
  {
    if cts != [] {
      TotalNonNegative(rules, floor, cts[..|cts| - 1]);
    }
  }

  /** More containers never relieve the budget: adding containers that could be inspected
      keeps a BAD verdict BAD, wherever they are added and whatever rules exclude; and
      one that is counted but could not be inspected always forces UNKNOWN. */
  lemma {:induction false} MoreNeverRelieves(rules: seq<Rule>, inp: Inputs, cts: seq<Container>,
      more: seq<Container>, all: seq<Container>)
    requires inp.Valid() && multiset(all) == multiset(cts + more)
    ensures !Incomplete(rules, more) && Verdict(rules, inp, cts) == BAD ==> Verdict(rules, inp, all) == BAD
    ensures Incomplete(rules, more) ==> Verdict(rules, inp, all) == UNKNOWN
  {
    OrderIrrelevant(rules, inp, all, cts + more);
    TotalConcat(rules, inp.floor, cts, more);
    TotalNonNegative(rules, inp.floor, more);
    assert forall c :: c in cts + more <==> c in cts || c in more;
  }
}

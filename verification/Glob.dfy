/** The greedy glob matcher with single-star backtracking, against the declarative
    meaning of a pattern. */
module Glob {

  /** From position i of the pattern and j of the subject: '*' stands for any run of
      characters, '?' for exactly one, anything else for itself. */
  predicate MatchesAt(p: string, i: nat, s: string, j: nat)
    requires i <= |p| && j <= |s|
    decreases |p| - i, 0
  {
    if i == |p| then j == |s|
    else if p[i] == '*' then MatchesFrom(p, i + 1, s, j)
    else j < |s| && (p[i] == '?' || p[i] == s[j]) && MatchesAt(p, i + 1, s, j + 1)
  }

  /** The rest of the pattern matches after some run of characters. */
  predicate MatchesFrom(p: string, i: nat, s: string, j: nat)
    requires i <= |p| && j <= |s|
    decreases |p| - i, 1
  {
    exists k: nat :: j <= k <= |s| && MatchesAt(p, i, s, k)
  }

  predicate Matches(p: string, s: string) { MatchesAt(p, 0, s, 0) }

  predicate AllStars(p: string, i: nat)
    requires i <= |p|
  {
    forall k :: i <= k < |p| ==> p[k] == '*'
  }

  /** The positions of a scan: the latest star, or -1, and where its run ends. */
  predicate Positions(p: string, s: string, pi: nat, si: nat, star: int, mark: nat) {
    && pi <= |p| && mark <= si <= |s|
    && -1 <= star < pi && (star >= 0 ==> p[star] == '*')
  }

  /** What the matcher answers from given positions. Only the latest star is ever
      retried, and a literal match is taken before a star is. */
  predicate Scan(p: string, s: string, pi: nat, si: nat, star: int, mark: nat)
    requires Positions(p, s, pi, si, star, mark)
    decreases |p| - star, |s| - mark, |s| - si
  {
    if si == |s| then AllStars(p, pi)
    else if pi < |p| && (p[pi] == '?' || p[pi] == s[si]) then Scan(p, s, pi + 1, si + 1, star, mark)
    else if pi < |p| && p[pi] == '*' then Scan(p, s, pi + 1, si, pi, si)
    else if star != -1 then Scan(p, s, star + 1, mark + 1, star, mark + 1)
    else false
  }

  predicate Accepts(p: string, s: string) { Scan(p, s, 0, 0, -1, 0) }

  // ---- why the latest star is enough ----

  lemma {:induction false} EmptySubject(p: string, i: nat, s: string)
    requires i <= |p|
    ensures MatchesAt(p, i, s, |s|) == AllStars(p, i)
    decreases |p| - i
  {
    if i < |p| {
      EmptySubject(p, i + 1, s);
    }
  }

  lemma {:induction false} RunEnd(p: string, i: nat, s: string, j: nat) returns (k: nat)
    requires i <= |p| && j <= |s| && MatchesFrom(p, i, s, j)
    ensures j <= k <= |s| && MatchesAt(p, i, s, k)
  {
    k :| j <= k <= |s| && MatchesAt(p, i, s, k);
  }

  predicate StarFree(p: string, a: nat, b: nat)
    requires a <= b <= |p|
  {
    forall i :: a <= i < b ==> p[i] != '*'
  }

  /** The literal stretch p[a..b] matches the subject from j on. */
  predicate LiteralAt(p: string, a: nat, b: nat, s: string, j: nat)
    requires a <= b <= |p|
  {
    && j + (b - a) <= |s|
    && forall i :: a <= i < b ==> p[i] == '?' || p[i] == s[j + (i - a)]
  }

  /** A star-free stretch matches exactly by matching literally. */
  lemma {:induction false} StretchIsLiteral(p: string, a: nat, b: nat, s: string, j: nat)
    requires a <= b <= |p| && j <= |s| && StarFree(p, a, b)
    ensures MatchesAt(p, a, s, j) ==
            (LiteralAt(p, a, b, s, j) && MatchesAt(p, b, s, j + (b - a)))
    decreases b - a
  {
    if a < b {
      assert p[a] != '*';
      if j < |s| && (p[a] == '?' || p[a] == s[j]) {
        StretchIsLiteral(p, a + 1, b, s, j + 1);
        assert LiteralAt(p, a, b, s, j) == LiteralAt(p, a + 1, b, s, j + 1);
      }
    }
  }

  /** Committing to a later star loses no match: with the stretch between them matched
      literally, matching from the earlier star is matching from the later one. */
  lemma {:induction false} LaterStarSuffices(p: string, s: string, star: nat, mark: nat, pi: nat, si: nat)
    requires star < pi < |p| && p[star] == '*' && p[pi] == '*'
    requires StarFree(p, star + 1, pi) && LiteralAt(p, star + 1, pi, s, mark)
    requires si == mark + (pi - star - 1) <= |s|
    ensures MatchesAt(p, star, s, mark) == MatchesAt(p, pi, s, si)
  {
    StretchIsLiteral(p, star + 1, pi, s, mark);
    if MatchesAt(p, star, s, mark) {
      var k := RunEnd(p, star + 1, s, mark);
      StretchIsLiteral(p, star + 1, pi, s, k);
      var k' := RunEnd(p, pi + 1, s, k + (pi - star - 1));
    }
  }

  /** The stretch after the latest star fails here, so its run must grow. */
  lemma {:induction false} GrowRun(p: string, s: string, star: nat, mark: nat, pi: nat, si: nat)
    requires star < pi <= |p| && p[star] == '*' && StarFree(p, star + 1, pi)
    requires LiteralAt(p, star + 1, pi, s, mark) && si == mark + (pi - star - 1) < |s|
    requires !MatchesAt(p, pi, s, si)
    ensures MatchesAt(p, star, s, mark) == MatchesAt(p, star, s, mark + 1)
  {
    StretchIsLiteral(p, star + 1, pi, s, mark);
  }

  /** The subject is used up: the pattern's rest must be stars. */
  lemma {:induction false} SubjectUsedUp(p: string, s: string, star: nat, mark: nat, pi: nat)
    requires star < pi <= |p| && p[star] == '*' && StarFree(p, star + 1, pi)
    requires LiteralAt(p, star + 1, pi, s, mark) && |s| == mark + (pi - star - 1)
    ensures MatchesAt(p, star, s, mark) == AllStars(p, pi)
  {
    EmptySubject(p, pi, s);
    StretchIsLiteral(p, star + 1, pi, s, mark);
    if MatchesAt(p, star, s, mark) {
      var k := RunEnd(p, star + 1, s, mark);
      StretchIsLiteral(p, star + 1, pi, s, k);
      assert k == mark;
    }
  }

  /** On a star-free subject the scan answers the declarative question, from every
      position it can reach. */
  lemma {:induction false} ScanIsExact(p: string, s: string, pi: nat, si: nat, star: int, mark: nat)
    requires Positions(p, s, pi, si, star, mark) && '*' !in s
    requires star >= 0 ==>
               && si == mark + (pi - star - 1)
               && StarFree(p, star + 1, pi) && LiteralAt(p, star + 1, pi, s, mark)
    ensures Scan(p, s, pi, si, star, mark)
            == if star == -1 then MatchesAt(p, pi, s, si) else MatchesAt(p, star, s, mark)
    decreases |p| - star, |s| - mark, |s| - si
  {
    if si == |s| {
      if star == -1 {
        EmptySubject(p, pi, s);
      } else {
        SubjectUsedUp(p, s, star, mark, pi);
      }
    } else if pi < |p| && (p[pi] == '?' || p[pi] == s[si]) {
      assert s[si] in s;
      ScanIsExact(p, s, pi + 1, si + 1, star, mark);
    } else if pi < |p| && p[pi] == '*' {
      ScanIsExact(p, s, pi + 1, si, pi, si);
      if star >= 0 {
        LaterStarSuffices(p, s, star, mark, pi, si);
      }
    } else if star != -1 {
      GrowRun(p, s, star, mark, pi, si);
      ScanIsExact(p, s, star + 1, mark + 1, star, mark + 1);
    }
  }

  /** For every pattern and every subject without a '*' the matcher is right. */
  lemma {:induction false} AcceptsExactly(p: string, s: string)
    requires '*' !in s
    ensures Accepts(p, s) == Matches(p, s)
  {
    ScanIsExact(p, s, 0, 0, -1, 0);
  }

  // ---- subjects that contain a star ----

  /** On any subject, stars included, an accepting scan has found a match: of what is
      left, or of the latest star grown by at least one. */
  lemma {:induction false} ScanIsSound(p: string, s: string, pi: nat, si: nat, star: int, mark: nat)
    requires Positions(p, s, pi, si, star, mark) && Scan(p, s, pi, si, star, mark)
    ensures MatchesAt(p, pi, s, si) || (star >= 0 && mark < |s| && MatchesFrom(p, star + 1, s, mark + 1))
    decreases |p| - star, |s| - mark, |s| - si
  {
    if si == |s| {
      EmptySubject(p, pi, s);
    } else if pi < |p| && (p[pi] == '?' || p[pi] == s[si]) {
      ScanIsSound(p, s, pi + 1, si + 1, star, mark);
    } else if pi < |p| && p[pi] == '*' {
      ScanIsSound(p, s, pi + 1, si, pi, si);
    } else {
      ScanIsSound(p, s, star + 1, mark + 1, star, mark + 1);
    }
  }

  /** The matcher errs in one direction only: what it accepts does match, whatever the
      subject contains. */
  lemma {:induction false} AcceptsSoundly(p: string, s: string)
    requires Accepts(p, s)
    ensures Matches(p, s)
  {
    ScanIsSound(p, s, 0, 0, -1, 0);
  }

  method GlobMatch(pattern: string, s: string) returns (r: bool)
    ensures r == Accepts(pattern, s)
    ensures r ==> Matches(pattern, s)
    ensures '*' !in s ==> r == Matches(pattern, s)
  {
    if Accepts(pattern, s) {
      AcceptsSoundly(pattern, s);
    }
    if '*' !in s {
      ScanIsExact(pattern, s, 0, 0, -1, 0);
    }
    var star, starMatch := -1, 0;
    var pi, si := 0, 0;
    while si < |s|
      invariant Positions(pattern, s, pi, si, star, starMatch)
      invariant Accepts(pattern, s) == Scan(pattern, s, pi, si, star, starMatch)
      decreases |pattern| - star, |s| - starMatch, |s| - si
    {
      if pi < |pattern| && (pattern[pi] == '?' || pattern[pi] == s[si]) {
        pi, si := pi + 1, si + 1;
      } else if pi < |pattern| && pattern[pi] == '*' {
        star, starMatch := pi, si;
        pi := pi + 1;
      } else if star != -1 {
        pi := star + 1;
        starMatch := starMatch + 1;
        si := starMatch;
      } else {
        return false;
      }
    }
    ghost var rest := pi;
    while pi < |pattern| && pattern[pi] == '*'
      invariant rest <= pi <= |pattern|
      invariant forall k :: rest <= k < pi ==> pattern[k] == '*'
    {
      pi := pi + 1;
    }
    r := pi == |pattern|;
  }

  function Questions(n: nat): (q: string)
    ensures |q| == n && forall i :: 0 <= i < n ==> q[i] == '?'
  {
    seq(n, _ => '?')
  }

  lemma {:induction false} QuestionsPass(p: string, s: string, i: nat, n: nat)
    requires i <= n <= |p| && n <= |s| && forall k :: 0 <= k < n ==> p[k] == '?'
    ensures Scan(p, s, i, i, -1, 0) == Scan(p, s, n, n, -1, 0)
    ensures MatchesAt(p, i, s, i) == MatchesAt(p, n, s, n)
    decreases n - i
  {
    if i < n {
      QuestionsPass(p, s, i + 1, n);
    }
  }

  /** A pattern the matcher gets wrong, for any subject with a star at n: the star of
      the pattern is spent on the star of the subject as if it were a letter. */
  lemma {:induction false} StarMisread(s: string, n: nat)
    requires n < |s| && s[n] == '*'
    ensures exists p :: Matches(p, s) && !Accepts(p, s)
  {
    var p := Questions(n) + if n + 1 < |s| then "*" else "*?";
    QuestionsPass(p, s, 0, n);
    assert p[n] == '*';
    if n + 1 < |s| {
      assert MatchesAt(p, n + 1, s, |s|);
      assert !Scan(p, s, n + 1, n + 1, -1, 0);
    } else {
      assert p[n + 1] == '?' && MatchesAt(p, n + 2, s, n + 1);
      assert MatchesAt(p, n + 1, s, n);
      assert !AllStars(p, n + 1);
    }
    assert Matches(p, s) && !Accepts(p, s);
  }

  /** The matcher is right about a subject, whatever the pattern, if and only if the
      subject contains no '*'. */
  lemma {:induction false} RightExactlyOnStarFree(s: string)
    ensures (forall p :: Accepts(p, s) == Matches(p, s)) <==> '*' !in s
  {
    if '*' in s {
      var n :| 0 <= n < |s| && s[n] == '*';
      StarMisread(s, n);
    } else {
      forall p ensures Accepts(p, s) == Matches(p, s) {
        AcceptsExactly(p, s);
      }
    }
  }
}

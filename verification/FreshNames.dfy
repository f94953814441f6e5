/** Names made unique with a number: "name", "name-2", "name-3", and so on until one is free. */
module FreshNames {
  import opened Text

  function Candidate(base: string, n: nat): string
    requires n >= 1
  {
    if n == 1 then base else base + "-" + Decimal(n)
  }

  lemma CandidatesDiffer(base: string, m: nat, n: nat)
    requires 1 <= m && 1 <= n && Candidate(base, m) == Candidate(base, n)
    ensures m == n
  {
    if m > 1 && n > 1 {
      var a, b := Candidate(base, m), Candidate(base, n);
      assert a[|base| + 1..] == Decimal(m) && b[|base| + 1..] == Decimal(n);
      DecimalInjective(m, n);
    }
  }

  /** Candidate `n` is the first one nobody has. */
  ghost predicate FirstFree(taken: set<string>, base: string, n: nat) {
    && n >= 1
    && Candidate(base, n) !in taken
    && forall m :: 1 <= m < n ==> Candidate(base, m) in taken
  }

  lemma FirstFreeUnique(taken: set<string>, base: string, m: nat, n: nat)
    requires FirstFree(taken, base, m) && FirstFree(taken, base, n)
    ensures m == n
  {
  }

  ghost function Candidates(base: string, n: nat): (s: set<string>)
    ensures forall m :: 1 <= m <= n ==> Candidate(base, m) in s
  {
    if n == 0 then {} else Candidates(base, n - 1) + {Candidate(base, n)}
  }

  lemma {:induction false} CandidatesMembers(base: string, n: nat, c: string)
    requires c in Candidates(base, n)
    ensures exists m :: 1 <= m <= n && c == Candidate(base, m)
  {
    if c != Candidate(base, n) { CandidatesMembers(base, n - 1, c); }
  }

  lemma {:induction false} CandidatesCount(base: string, n: nat)
    ensures |Candidates(base, n)| == n
  {
    if n > 0 {
      CandidatesCount(base, n - 1);
      if Candidate(base, n) in Candidates(base, n - 1) {
        CandidatesMembers(base, n - 1, Candidate(base, n));
        var m :| 1 <= m <= n - 1 && Candidate(base, n) == Candidate(base, m);
        CandidatesDiffer(base, m, n);
      }
    }
  }

  /** `n` taken candidates are `n` different taken names. */
  lemma Pigeonhole(taken: set<string>, base: string, n: nat)
    requires forall m :: 1 <= m <= n ==> Candidate(base, m) in taken
    ensures n <= |taken|
  {
    CandidatesCount(base, n);
    forall c | c in Candidates(base, n) ensures c in taken {
      CandidatesMembers(base, n, c);
    }
    SubsetSize(Candidates(base, n), taken);
  }

  lemma {:induction false} SubsetSize<T>(a: set<T>, b: set<T>)
    requires a <= b
    ensures |a| <= |b|
  {
    if a != {} {
      var x :| x in a;
      SubsetSize(a - {x}, b - {x});
    }
  }

  /** The search of the settings normaliser: it ends, with the first candidate nobody has. */
  method FreeName(taken: set<string>, base: string) returns (name: string)
    ensures exists n: nat :: n <= |taken| + 1 && FirstFree(taken, base, n) && name == Candidate(base, n)
  {
    ghost var n := 1;
    name := base;
    var suffix := 2;
    while name in taken
      invariant suffix == n + 1 && n >= 1 && name == Candidate(base, n)
      invariant forall m :: 1 <= m < n ==> Candidate(base, m) in taken
      decreases |taken| + 1 - n
    {
      Pigeonhole(taken, base, n);
      name := base + "-" + Decimal(suffix);
      suffix, n := suffix + 1, n + 1;
    }
    Pigeonhole(taken, base, n - 1);
  }
}

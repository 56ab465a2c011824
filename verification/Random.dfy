/** The pseudo-random generator of the benchmark (sqlite3/src/random.c): a Lehmer generator
    whose remainder modulo 2^31 - 1 is taken without a division. */
module Random {

  const M: nat := 2147483647
  const A: nat := 16807
  const AINVERSE: nat := 1407677000
  const TWO31: nat := 0x8000_0000
  const TWO32: nat := 0x1_0000_0000
  const TWO64: nat := 0x1_0000_0000_0000_0000

  /** The seeds the generator can be in. */
  predicate Good(s: int) { 1 <= s < M }

  /** The step as the code takes it, in 64-bit and 32-bit unsigned arithmetic; the low 31
      bits are the remainder by 2^31. */
  function Fold(s: nat): nat
    requires s < TWO32
  {
    var product := s * A % TWO64;
    var sum := (product / TWO31 + product % TWO31) % TWO64 % TWO32;
    if sum > M then sum - M else sum
  }

  /** The step as it is meant. */
  function Step(s: nat): nat { s * A % M }

  /** High and low half of a product add up to it, modulo 2^31 - 1. */
  lemma HalvesAddUp(p: nat)
    requires 0 < p < M * A
    ensures 0 < p / TWO31 + p % TWO31 < 2 * M && (p / TWO31 + p % TWO31) % M == p % M
  {
    var (h, l) := (p / TWO31, p % TWO31);
    assert p == h * M + (h + l);
    assert h <= A;
  }

  lemma FoldIsStep(s: nat)
    requires Good(s)
    ensures s * A < TWO64 && s * A / TWO31 + s * A % TWO31 < TWO32
    ensures Fold(s) == Step(s) && Good(Step(s))
  {
    HalvesAddUp(s * A);
    StepIsGood(s);
    var sum := s * A / TWO31 + s * A % TWO31;
    SubtractOnce(sum);
    assert s * A % TWO64 == s * A && sum % TWO64 % TWO32 == sum;
  }

  lemma SubtractOnce(x: nat)
    requires 0 < x < 2 * M && x % M != 0
    ensures (if x > M then x - M else x) == x % M
  {
  }

  lemma StepIsGood(s: nat)
    requires Good(s)
    ensures Good(Step(s))
  {
    StepBack(s);
  }

  function Back(r: nat): nat { r * AINVERSE % M }

  lemma ModOf(x: int, q: int, r: int)
    requires x == M * q + r && 0 <= r < M
    ensures x % M == r
  {
  }

  lemma StepThenBack(s: nat)
    requires s < M
    ensures Back(Step(s)) == s
  {
    var (q, r) := (s * A / M, s * A % M);
    assert s * A == M * q + r;
    ModOf(r * AINVERSE, 11017 * s - q * AINVERSE, s);
  }

  lemma BackThenStep(s: nat)
    requires s < M
    ensures Step(Back(s)) == s
  {
    var (q, r) := (s * AINVERSE / M, s * AINVERSE % M);
    assert s * AINVERSE == M * q + r;
    ModOf(r * A, 11017 * s - q * A, s);
  }

  lemma StepBack(s: nat)
    requires s < M
    ensures Back(Step(s)) == s && Step(Back(s)) == s
  {
    StepThenBack(s);
    BackThenStep(s);
  }

  /** The step permutes the seeds: every seed has exactly one predecessor. */
  lemma StepIsBijection(s: nat, r: nat)
    requires Good(s) && Good(r)
    ensures Good(Step(s)) && Good(Back(r)) && (Step(s) == r <==> s == Back(r))
  {
    StepBack(s);
    StepBack(r);
  }

  function Pow(n: nat): nat { if n == 0 then 1 else Pow(n - 1) * A }

  /** The seed after `n` calls. */
  function Steps(s: nat, n: nat): nat { if n == 0 then s else Step(Steps(s, n - 1)) }

  lemma ModTimes(x: nat)
    ensures x % M * A % M == x * A % M
  {
    var (q, r) := (x / M, x % M);
    var (q', r') := (r * A / M, r * A % M);
    assert x == M * q + r && r * A == M * q' + r';
    ModOf(x * A, q * A + q', r');
  }

  lemma Regroup(s: nat, p: nat)
    ensures s * p * A == s * (p * A)
  {
  }

  lemma {:induction false} StepsFormula(s: nat, n: nat)
    requires Good(s)
    ensures Steps(s, n) == s * Pow(n) % M && Good(Steps(s, n))
  {
    if n == 0 {
      ModOf(s, 0, s);
      assert s * Pow(0) == s;
    } else {
      StepsFormula(s, n - 1);
      StepIsGood(Steps(s, n - 1));
      ModTimes(s * Pow(n - 1));
      Regroup(s, Pow(n - 1));
    }
  }

  class Random {
    var seed: nat

    ghost predicate Valid()
      reads this
    {
      Good(seed)
    }

    /** rand_init: the low 31 bits, with the two seeds that would never change replaced. */
    constructor (s: nat)
      requires s < TWO32
      ensures Valid() && seed == if s % TWO31 == 0 || s % TWO31 == M then 1 else s % TWO31
    {
      seed := s % TWO31;
      if s % TWO31 == 0 || s % TWO31 == M {
        seed := 1;
      }
    }

    /** rand_next. */
    method Next() returns (r: nat)
      requires Valid()
      modifies this
      ensures Valid() && r == seed == Step(old(seed)) == old(seed) * 16807 % 2147483647
    {
      FoldIsStep(seed);
      var product := seed * A % TWO64;
      seed := (product / TWO31 + product % TWO31) % TWO64 % TWO32;
      if seed > M { seed := seed - M; }
      r := seed;
    }
  }

  lemma BadStaysBad(s: nat)
    requires s == 0 || s == M
    ensures Fold(s) == s
  {
    if s == M {
      assert s * A == (A - 1) * TWO31 + (TWO31 - A);
      QuotientOf(s * A, A - 1, TWO31 - A);
    }
  }

  lemma QuotientOf(x: nat, q: nat, r: nat)
    requires x == q * TWO31 + r && r < TWO31
    ensures x / TWO31 == q && x % TWO31 == r
  {
  }

  /** Why the two seeds are bad: from them, and from no other, the step does not lead to a
      good one. */
  lemma BadSeedsExactly(s: nat)
    requires s < TWO31
    ensures Good(Fold(s)) <==> Good(s)
  {
    if Good(s) {
      FoldIsStep(s);
    } else {
      BadStaysBad(s);
    }
  }
}

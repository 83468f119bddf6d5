/**
 * The CPU-bound work of the prime-counting endpoint: trial-division primality
 * and the ascending list of primes below a fixed limit, whose length the
 * endpoint reports as `primes_found`.
 */
module Server {

  /** The endpoint's fixed upper bound on the numbers it tests. */
  const Limit: nat := 15000

  predicate Divides(d: int, n: int) { d != 0 && n % d == 0 }

  /** The mathematical definition: greater than one, and no divisor in [2, n). */
  ghost predicate Prime(n: int)
  {
    n > 1 && forall d :: 2 <= d < n ==> !Divides(d, n)
  }

  /** Some divisor d with 2 <= d and d*d <= n: what the loop of `IsPrime` looks for. */
  ghost predicate HasDivisorUpToRoot(n: int)
  {
    exists d :: 2 <= d && d * d <= n && Divides(d, n)
  }

  /** Multiplying by a positive factor preserves strict order. */
  lemma MulStrict(k: int, a: int, b: int)
    requires k > 0 && a < b
    ensures k * a < k * b
  {
    assert k * b - k * a == k * (b - a);
  }

  /** A strict inequality between multiples of a positive k is one between the factors. */
  lemma MulCancelStrict(k: int, a: int, b: int)
    requires k > 0 && k * a < k * b
    ensures a < b
  {
    assert k * b - k * a == k * (b - a);
  }

  /** The only multiple of a positive q lying in [0, q) is q * 0. */
  lemma SmallMultiple(q: int, k: int)
    requires q > 0 && 0 <= q * k < q
    ensures k == 0
  {
  }

  /** A product of d and q has q as an exact divisor. */
  lemma ProductDivisible(d: int, q: int)
    requires d > 0 && q > 0
    ensures Divides(q, d * q)
  {
    var n := d * q;
    var m := n / q;
    assert n == q * m + n % q && 0 <= n % q < q;
    assert q * (d - m) == n % q;
    SmallMultiple(q, d - m);
  }

  /** A proper divisor implies one no larger than the square root (its cofactor, if not itself). */
  lemma DivisorUpToRoot(n: int, d: int)
    requires 2 <= d < n && Divides(d, n)
    ensures HasDivisorUpToRoot(n)
  {
    var q := n / d;
    assert n == d * q;
    MulCancelStrict(d, 1, q);
    if d * d <= n {
      assert Divides(d, n);
    } else {
      MulCancelStrict(d, q, d);
      MulStrict(q, q, d);
      ProductDivisible(d, q);
      assert 2 <= q && q * q <= n && Divides(q, n);
    }
  }

  /** A divisor up to the square root of n >= 2 is a proper divisor. */
  lemma DivisorUpToRootIsProper(n: int, d: int)
    requires 2 <= d && d * d <= n
    ensures d < n
  {
    MulStrict(d, 1, d);
  }

  /** Below a bound whose square exceeds n, every candidate up to the square root lies. */
  lemma SquareBelow(d: int, i: int)
    requires 0 <= d && 0 < i && d * d < i * i
    ensures d < i
  {
    assert (i - d) * (i + d) == i * i - d * d;
  }

  /** The square-root bound is sound and complete for every n >= 2. */
  lemma PrimeIffNoDivisorUpToRoot(n: int)
    requires n >= 2
    ensures Prime(n) <==> !HasDivisorUpToRoot(n)
  {
    if Prime(n) {
      forall d | 2 <= d && d * d <= n
        ensures !Divides(d, n)
      {
        DivisorUpToRootIsProper(n, d);
      }
    } else {
      var d :| 2 <= d < n && Divides(d, n);
      DivisorUpToRoot(n, d);
    }
  }

  /**
   * `is_prime`: reject n <= 1, then try every i from 2 while i*i <= n
   * (the integer form of `range(2, int(n**0.5) + 1)`), returning false at
   * the first divisor.
   */
  method IsPrime(n: int) returns (b: bool)
    ensures n <= 1 ==> !b
    ensures n >= 2 ==> (!b <==> HasDivisorUpToRoot(n))
    ensures b <==> Prime(n)
  {
    if n <= 1 {
      return false;
    }
    var i := 2;
    while i * i <= n
      invariant 2 <= i
      invariant forall d :: 2 <= d < i ==> !Divides(d, n)
      decreases n - i
    {
      DivisorUpToRootIsProper(n, i);
      if n % i == 0 {
        assert Divides(i, n);
        PrimeIffNoDivisorUpToRoot(n);
        return false;
      }
      i := i + 1;
    }
    forall d | 2 <= d && d * d <= n
      ensures !Divides(d, n)
    {
      SquareBelow(d, i);
    }
    PrimeIffNoDivisorUpToRoot(n);
    return true;
  }

  /** 2 and 3 are prime: the divisor range of `IsPrime` is empty for both. */
  lemma SmallPrimes()
    ensures Prime(2) && Prime(3)
    ensures !HasDivisorUpToRoot(2) && !HasDivisorUpToRoot(3)
  {
    forall d | 2 <= d
      ensures d * d > 3
    {
      MulStrict(d, 1, d);
    }
  }

  /** The comprehension `[num for num in range(limit) if is_prime(num)]`, as a specification. */
  ghost function PrimesBelow(limit: nat): (primes: seq<nat>)
    ensures |primes| <= limit
    ensures forall i :: 0 <= i < |primes| ==> primes[i] < limit && Prime(primes[i])
  {
    if limit == 0 then []
    else PrimesBelow(limit - 1) + (if Prime(limit - 1) then [limit - 1] else [])
  }

  /** The primes of the list are exactly the primes below the limit. */
  lemma {:induction false} PrimesBelowMembers(limit: nat)
    ensures forall p :: p in PrimesBelow(limit) <==> 0 <= p < limit && Prime(p)
  {
    if limit > 0 {
      PrimesBelowMembers(limit - 1);
    }
  }

  ghost predicate StrictlyIncreasing(s: seq<int>)
  {
    forall i, j :: 0 <= i < j < |s| ==> s[i] < s[j]
  }

  /** The list follows `range` order: strictly increasing. */
  lemma {:induction false} PrimesBelowIncreasing(limit: nat)
    ensures StrictlyIncreasing(PrimesBelow(limit))
  {
    if limit > 0 {
      PrimesBelowIncreasing(limit - 1);
      PrimesBelowMembers(limit - 1);
      var prev := PrimesBelow(limit - 1);
      assert forall i :: 0 <= i < |prev| ==> prev[i] in prev;
    }
  }

  /** The set of primes below a limit. */
  ghost function PrimeSet(limit: nat): set<nat>
  {
    set p: nat | p < limit && Prime(p)
  }

  /** The length of the list is the number of primes below the limit. */
  lemma {:induction false} PrimesBelowCount(limit: nat)
    ensures |PrimesBelow(limit)| == |PrimeSet(limit)|
  {
    if limit > 0 {
      PrimesBelowCount(limit - 1);
      if Prime(limit - 1) {
        assert PrimeSet(limit) == PrimeSet(limit - 1) + {limit - 1};
        assert limit - 1 !in PrimeSet(limit - 1);
      } else {
        assert PrimeSet(limit) == PrimeSet(limit - 1);
      }
    }
  }

  /** Builds the list of primes below `limit` by testing each number in turn. */
  method ListPrimes(limit: nat) returns (primes: seq<nat>)
    ensures primes == PrimesBelow(limit)
    ensures forall p :: p in primes <==> 0 <= p < limit && Prime(p)
    ensures StrictlyIncreasing(primes)
  {
    primes := [];
    for num := 0 to limit
      invariant primes == PrimesBelow(num)
    {
      var b := IsPrime(num);
      if b {
        primes := primes + [num];
      }
    }
    PrimesBelowMembers(limit);
    PrimesBelowIncreasing(limit);
  }

  /** `process_request` without the timing: `primes_found` is the number of primes below 15000. */
  method ProcessRequest() returns (primesFound: nat)
    ensures primesFound == |PrimeSet(Limit)|
  {
    var primes := ListPrimes(Limit);
    PrimesBelowCount(Limit);
    primesFound := |primes|;
  }
}

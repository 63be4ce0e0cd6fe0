/** The sieve of Eratosthenes in examples/exp9-prime-sql-memory/primes.py. */
module Sieve {
  function Times(d: nat, q: nat): nat { d * q }

  ghost predicate Divides(d: nat, n: nat) {
    exists q: nat :: Times(d, q) == n
  }

  ghost predicate IsPrime(n: nat) {
    n >= 2 && forall d: nat :: 2 <= d < n ==> !Divides(d, n)
  }

  /** n is a multiple of d from its square on, and before the q-th: what one slice assignment has
      cleared when it reaches the q-th multiple. */
  ghost predicate Cleared(n: nat, d: nat, q: nat) {
    exists r: nat :: d <= r < q && Times(d, r) == n
  }

  /** n is a multiple of some d in 2..i, from the square of d on. */
  ghost predicate Struck(n: nat, i: nat) {
    exists d: nat, r: nat :: 2 <= d < i && d <= r && Times(d, r) == n
  }

  lemma {:induction false} TimesGrows(d: nat, q: nat, r: nat)
    requires q <= r
    ensures Times(d, q) <= Times(d, r)
    ensures q < r ==> Times(d, q) + d <= Times(d, r)
  {
    if q == r {
    } else {
      TimesGrows(d, q, r - 1);
      assert Times(d, r) == Times(d, r - 1) + d;
    }
  }

  lemma SquareBelow(c: nat, a: nat, b: nat)
    requires c <= a && c <= b
    ensures Times(c, c) <= Times(a, b)
  {
    TimesGrows(c, c, b);
    TimesGrows(b, c, a);
    assert Times(c, b) == Times(b, c) && Times(a, b) == Times(b, a);
  }

  /** The multiples of a struck number are struck already, so skipping it loses nothing. */
  lemma StruckMultiples(i: nat, r: nat)
    requires Struck(i, i) && i <= r
    ensures Struck(Times(i, r), i)
  {
    var d: nat, q: nat :| 2 <= d < i && d <= q && Times(d, q) == i;
    assert Times(i, r) == Times(d, q * r) by { assert (d * q) * r == d * (q * r); }
    TimesGrows(q, 1, r);
    assert Times(q, r) == q * r;
    assert d <= q * r;
  }

  /** Striking the multiples of i, or finding i struck, completes i. */
  lemma StruckNext(n: nat, i: nat)
    requires 2 <= i
    ensures Struck(n, i + 1) <==> Struck(n, i) || (!Struck(i, i) && exists r: nat :: i <= r && Times(i, r) == n)
  {
    if Struck(n, i + 1) && !Struck(n, i) {
      var d: nat, r: nat :| 2 <= d < i + 1 && d <= r && Times(d, r) == n;
      assert d == i;
      if Struck(i, i) { StruckMultiples(i, r); }
    }
    if Struck(n, i) {
      var d: nat, r: nat :| 2 <= d < i && d <= r && Times(d, r) == n;
    }
  }

  /** Up to the square of the last divisor tried, what is left standing is prime, and nothing else. */
  lemma UnstruckIsPrime(n: nat, root: nat)
    requires 2 <= n < (root + 1) * (root + 1)
    ensures IsPrime(n) <==> !Struck(n, root + 1)
  {
    if Struck(n, root + 1) {
      var d: nat, r: nat :| 2 <= d < root + 1 && d <= r && Times(d, r) == n;
      TimesGrows(d, 1, r);
      assert 2 <= d < n && Divides(d, n);
    }
    if !IsPrime(n) {
      var d: nat :| 2 <= d < n && Divides(d, n);
      var q: nat :| Times(d, q) == n;
      SmallerFactor(n, root, d, q);
    }
  }

  lemma SmallerFactor(n: nat, root: nat, d: nat, q: nat)
    requires 2 <= d < n && Times(d, q) == n && n < (root + 1) * (root + 1)
    ensures Struck(n, root + 1)
  {
    assert q >= 2;
    var low, high := if d <= q then d else q, if d <= q then q else d;
    assert Times(low, high) == n;
    if low > root {
      SquareBelow(root + 1, low, high);
    }
  }

  /** Prints exactly the primes up to the limit, in increasing order. */
  method Primes(limit: int, root: nat) returns (out: seq<nat>)
    requires 0 <= limit ==> root * root <= limit < (root + 1) * (root + 1)
    ensures forall n: nat :: n in out <==> n <= limit && IsPrime(n)
    ensures forall i, j :: 0 <= i < j < |out| ==> out[i] < out[j]
  {
    if limit < 2 { return []; }
    var isPrime := new bool[limit + 1](_ => true);
    isPrime[0] := false;
    isPrime[1] := false;
    var i := 2;
    while i <= root
      invariant 2 <= i <= root + 1
      invariant forall n: nat :: n <= limit ==> (isPrime[n] <==> n >= 2 && !Struck(n, i))
      decreases root - i
    {
      assert i <= limit by { TimesGrows(i, 1, root); TimesGrows(root, i, root); }
      if isPrime[i] {
        ClearMultiples(isPrime, i);
      }
      forall n: nat | n <= limit ensures isPrime[n] <==> n >= 2 && !Struck(n, i + 1) {
        StruckNext(n, i);
      }
      i := i + 1;
    }
    forall n: nat | n <= limit ensures isPrime[n] <==> IsPrime(n) {
      if n >= 2 { UnstruckIsPrime(n, root); }
    }
    out := [];
    for n := 0 to limit + 1
      invariant forall m: nat :: m in out <==> m < n && isPrime[m]
      invariant forall j :: 0 <= j < |out| ==> out[j] < n
      invariant forall i, j :: 0 <= i < j < |out| ==> out[i] < out[j]
    {
      if isPrime[n] {
        out := out + [n];
      }
    }
  }

  /** The slice assignment: clears the multiples of i from its square to the end, and nothing else. */
  method ClearMultiples(isPrime: array<bool>, i: nat)
    requires 2 <= i
    modifies isPrime
    ensures forall n: nat :: n < isPrime.Length ==>
              (isPrime[n] <==> old(isPrime[n]) && !exists r: nat :: i <= r && Times(i, r) == n)
  {
    var at, q := i * i, i;
    while at < isPrime.Length
      invariant i <= q && at == Times(i, q)
      invariant forall n: nat :: n < isPrime.Length ==> (isPrime[n] <==> old(isPrime[n]) && !Cleared(n, i, q))
      decreases isPrime.Length - at
    {
      isPrime[at] := false;
      at, q := at + i, q + 1;
    }
  }
}

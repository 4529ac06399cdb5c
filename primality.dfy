/**
 The primality evaluator: maps an integer to a verdict, a yes/no answer
 together with the explanation the program prints. `Verdict` is the
 specification, stated with the least divisor of the number; `IsPrime` is
 the program's own ascending trial division from 2 up to n / 2.
 */
module Primality {
  import opened Decimal

  const NegativeMessage := "Negative numbers are not prime, by definition!"

  predicate Divides(d: int, n: int) {
    d != 0 && n % d == 0
  }

  /** Mathematical primality. */
  ghost predicate Prime(n: int) {
    n >= 2 && forall d :: 2 <= d < n ==> !Divides(d, n)
  }

  function DefinitionMessage(n: int): string {
    IntToString(n) + " is not prime, by definition!"
  }

  function PrimeMessage(n: int): string {
    IntToString(n) + " is a prime number!"
  }

  function CompositeMessage(n: int, d: int): string {
    IntToString(n) + " is not a prime number because it is divisible by " + IntToString(d) + "!"
  }

  /** The least divisor of n that is at least k, given that there is none in [2, k). */
  function LeastDivisorFrom(n: int, k: int): (d: int)
    requires 2 <= k <= n
    requires forall j :: 2 <= j < k ==> !Divides(j, n)
    ensures k <= d <= n && Divides(d, n)
    ensures forall j :: 2 <= j < d ==> !Divides(j, n)
    decreases n - k
  {
    if Divides(k, n) then k else LeastDivisorFrom(n, k + 1)
  }

  /** The least divisor of n greater than 1. */
  function LeastDivisor(n: int): (d: int)
    requires n >= 2
    ensures 2 <= d <= n && Divides(d, n)
    ensures forall j :: 2 <= j < d ==> !Divides(j, n)
  {
    LeastDivisorFrom(n, 2)
  }

  /** The verdict pair for n: whether it is prime, and the message explaining why. */
  function Verdict(n: int): (bool, string) {
    if n == 0 || n == 1 then (false, DefinitionMessage(n))
    else if n < 0 then (false, NegativeMessage)
    else
      var d := LeastDivisor(n);
      if d == n then (true, PrimeMessage(n)) else (false, CompositeMessage(n, d))
  }

  /** A proper divisor of n is at most n / 2, so the search bound n / 2 misses none. */
  lemma ProperDivisorAtMostHalf(n: int, d: int)
    requires 2 <= d < n && Divides(d, n)
    ensures d <= n / 2
  {
  }

  /** The least divisor is determined by its defining properties. */
  lemma LeastDivisorUnique(n: int, d: int)
    requires 2 <= d <= n && Divides(d, n)
    requires forall j :: 2 <= j < d ==> !Divides(j, n)
    ensures LeastDivisor(n) == d
  {
  }

  /** The boolean of the verdict is exactly mathematical primality. */
  lemma VerdictDecidesPrimality(n: int)
    ensures Verdict(n).0 <==> Prime(n)
  {
  }

  /** A prime gets "<n> is a prime number!". */
  lemma PrimeVerdict(n: int)
    requires Prime(n)
    ensures Verdict(n) == (true, PrimeMessage(n))
  {
    VerdictDecidesPrimality(n);
  }

  /**
   A composite whose least divisor above 1 is d gets the message naming d;
   that d is never beyond n / 2.
   */
  lemma CompositeVerdict(n: int, d: int)
    requires 2 <= d < n && Divides(d, n)
    requires forall j :: 2 <= j < d ==> !Divides(j, n)
    ensures d <= n / 2
    ensures Verdict(n) == (false, CompositeMessage(n, d))
  {
    LeastDivisorUnique(n, d);
    ProperDivisorAtMostHalf(n, d);
  }

  /** Numbers below 2 are not prime "by definition", each with its own text. */
  lemma NotPrimeByDefinition(n: int)
    requires n <= 1
    ensures !Prime(n)
    ensures Verdict(n) == (false, if n < 0 then NegativeMessage else DefinitionMessage(n))
  {
  }

  /** The expected verdicts of the program's test table, one row each. */
  lemma VerdictOfSeven()
    ensures Verdict(7) == (true, "7 is a prime number!")
  {
    assert LeastDivisor(7) == 7 && IntToString(7) == "7";
    assert PrimeMessage(7) == "7 is a prime number!";
  }

  lemma VerdictOfEight()
    ensures Verdict(8) == (false, "8 is not a prime number because it is divisible by 2!")
  {
    assert LeastDivisor(8) == 2;
    CompositeMessageOfEight();
  }

  lemma VerdictOfZero()
    ensures Verdict(0) == (false, "0 is not prime, by definition!")
  {
    assert IntToString(0) == "0";
    JoinZeroText();
  }

  lemma VerdictOfOne()
    ensures Verdict(1) == (false, "1 is not prime, by definition!")
  {
    assert IntToString(1) == "1";
    JoinOneText();
  }

  lemma VerdictOfMinusEleven()
    ensures Verdict(-11) == (false, "Negative numbers are not prime, by definition!")
  {
  }

  /** The literal text of the composite row of the test table. */
  lemma CompositeMessageOfEight()
    ensures CompositeMessage(8, 2) == "8 is not a prime number because it is divisible by 2!"
  {
    assert IntToString(8) == "8" && IntToString(2) == "2";
    SplitDivisibleText();
    JoinEightText();
    JoinEightHalves();
  }

  // Solver scaffolding, not properties of the program: literals this long
  // are compared in pieces, one concatenation identity per lemma.
  lemma JoinZeroText()
    ensures "0" + " is not prime, by definition!" == "0 is not prime, by definition!"
  {
  }

  lemma JoinOneText()
    ensures "1" + " is not prime, by definition!" == "1 is not prime, by definition!"
  {
  }

  lemma SplitDivisibleText()
    ensures " is not a prime number because it is divisible by "
         == " is not a prime number" + " because it is divisible by "
  {
  }

  lemma JoinEightText()
    ensures "8" + (" is not a prime number" + " because it is divisible by ") + "2" + "!"
         == "8 is not a prime number" + " because it is divisible by 2!"
  {
  }

  lemma JoinEightHalves()
    ensures "8 is not a prime number" + " because it is divisible by 2!"
         == "8 is not a prime number because it is divisible by 2!"
  {
  }

  /** The program's isPrime: trial division by 2, 3, ..., n / 2 in ascending order. */
  method IsPrime(n: int) returns (prime: bool, msg: string)
    ensures prime <==> Prime(n)
    ensures (prime, msg) == Verdict(n)
  {
    if n == 0 || n == 1 {
      return false, DefinitionMessage(n);
    }
    if n < 0 {
      return false, NegativeMessage;
    }
    var i := 2;
    while i <= n / 2
      invariant 2 <= i <= n / 2 + 1
      invariant forall j :: 2 <= j < i ==> !Divides(j, n)
    {
      if n % i == 0 {
        CompositeVerdict(n, i);
        VerdictDecidesPrimality(n);
        return false, CompositeMessage(n, i);
      }
      i := i + 1;
    }
    forall j | 2 <= j < n
      ensures !Divides(j, n)
    {
      if Divides(j, n) {
        ProperDivisorAtMostHalf(n, j);
      }
    }
    PrimeVerdict(n);
    return true, PrimeMessage(n);
  }
}

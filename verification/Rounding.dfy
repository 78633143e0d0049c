/**
 The conversion of whole numbers to doubles that version comparison goes through, against
 what IEEE 754 asks of it: the nearest double, on a tie the even one, and infinity from
 halfway past the largest double on.
 */
module Rounding {
  import opened Versions

  function Pow2(e: nat): nat { if e == 0 then 1 else 2 * Pow2(e - 1) }

  function Distance(a: int, b: int): nat { if a <= b then b - a else a - b }

  lemma {:induction false} PowSum(a: nat, b: nat)
    ensures Pow2(a + b) == Pow2(a) * Pow2(b)
  {
    if a > 0 {
      PowSum(a - 1, b);
      Product(Pow2(a - 1), Pow2(b));
    }
  }

  lemma Product(a: nat, b: nat)
    ensures 2 * a * b == 2 * (a * b)
  {
  }

  lemma {:induction false} UnitIsPower(n: nat) returns (j: nat)
    ensures Scale(n).g == Pow2(j)
    decreases n
  {
    if n < TWO53 { return 0; }
    j := UnitIsPower(n / 2);
    j := j + 1;
  }

  // ----- the nearest double

  lemma Between(q: nat, r: nat, g: nat, t: nat)
    ensures t <= q ==> t * g <= q * g
    ensures t > q ==> t * g >= (q + 1) * g == q * g + g
  {
    if t <= q { Times(t, q, g); } else { Times(q + 1, t, g); }
  }

  ghost predicate EvenMultiple(m: nat, g: nat) { exists u: nat :: u % 2 == 0 && m == u * g }

  lemma NearestOfMultiples(q: nat, r: nat, g: nat, t: nat)
    requires r < g
    ensures var n, m := q * g + r, Nearest(q, r, g);
            && Distance(m, n) <= Distance(t * g, n) && Distance(m, n) <= r
            && (Distance(m, n) == Distance(t * g, n) && t * g != m ==> EvenMultiple(m, g))
  {
    Between(q, r, g, t);
    Between(q, r, g, q + 1);
    if q % 2 == 0 { assert q * g == q * g; } else { assert (q + 1) % 2 == 0; }
  }

  /** Every double is a multiple of the unit at `q`, or not above `q` of them. */
  lemma MultipleOrBelow(k: nat, e: nat, q: nat, j: nat) returns (t: nat)
    requires k < TWO53 <= 2 * q
    ensures k * Pow2(e) == t * Pow2(j) || k * Pow2(e) <= q * Pow2(j)
  {
    if e >= j {
      PowSum(e - j, j);
      t := k * Pow2(e - j);
      Regroup(k, Pow2(e - j), Pow2(j));
    } else {
      t := 0;
      PowSum(j - e - 1, e + 1);
      AtLeastOne(j - e - 1);
      Times(1, Pow2(j - e - 1), Pow2(e + 1));
      Times(k, 2 * q, Pow2(e));
      Regroup(q, 2, Pow2(e));
      Larger(q, Pow2(e + 1), Pow2(j));
    }
  }

  lemma Regroup(a: nat, b: nat, c: nat)
    ensures a * (b * c) == a * b * c
  {
  }

  lemma Larger(q: nat, a: nat, b: nat)
    requires a <= b
    ensures q * a <= q * b
  {
  }

  lemma {:induction false} AtLeastOne(e: nat)
    ensures Pow2(e) >= 1
  {
    if e > 0 { AtLeastOne(e - 1); }
  }

  /** No double is nearer to a number than what it is rounded to, and if another is as near, the
      result is an even multiple of the unit. */
  lemma RoundedIsNearest(n: nat, k: nat, e: nat)
    requires k < TWO53
    ensures Distance(Rounded(n), n) <= Distance(k * Pow2(e), n)
    ensures Distance(Rounded(n), n) == Distance(k * Pow2(e), n) && k * Pow2(e) != Rounded(n) ==>
              EvenMultiple(Rounded(n), Scale(n).g)
  {
    ScaleFacts(n);
    var s := Scale(n);
    if s.g > 1 {
      var j := UnitIsPower(n);
      var t := MultipleOrBelow(k, e, s.q, j);
      NearestOfMultiples(s.q, s.r, s.g, t);
      NearestOfMultiples(s.q, s.r, s.g, s.q);
    }
  }

  /** What a number is rounded to is a double. */
  lemma RoundedIsADouble(n: nat) returns (k: nat, e: nat)
    ensures k < TWO53 && Rounded(n) == k * Pow2(e)
  {
    ScaleFacts(n);
    e := UnitIsPower(n);
    var s := Scale(n);
    k := if Rounded(n) == s.q * s.g then s.q else s.q + 1;
    if k == TWO53 {
      k, e := TWO53 / 2, e + 1;
    }
  }

  // ----- infinity

  lemma {:induction false} ScaleOf(k: nat, t: nat, j: nat)
    requires k < TWO53 <= 2 * k && t < Pow2(j)
    ensures Scale(k * Pow2(j) + t) == Scaled(k, t, Pow2(j))
  {
    if j > 0 {
      var h, n := Pow2(j - 1), k * Pow2(j) + t;
      Doubled(k, h);
      assert n / 2 == k * h + t / 2 && n % 2 == t % 2;
      AtLeastOne(j - 1);
      Times(1, h, k);
      ScaleOf(k, t / 2, j - 1);
    }
  }

  /** The bound in units of the binade below it, and the two numbers at half a unit below. */
  lemma TopOfBinade(j: nat)
    ensures var k, half, g := TWO53 - 1, Pow2(j), Pow2(j + 1);
            Pow2(j + 54) == k * g + g && g == 2 * half && half >= 1
  {
    PowSum(53, j + 1);
    SignificandBits();
    AtLeastOne(j);
    OneLess(TWO53, Pow2(j + 1));
  }

  lemma EdgeRounds(k: nat, half: nat, g: nat, n: nat)
    requires g == 2 * half && half >= 1 && k % 2 == 1
    ensures Scale(n) == Scaled(k, half, g) ==> Rounded(n) == k * g + g
    ensures Scale(n) == Scaled(k, half - 1, g) ==> Rounded(n) == k * g
  {
    OneLess(k + 1, g);
  }

  /** The halfway point above the largest double below 2^(j + 54), and the number before it. */
  lemma AtTheEdge(j: nat)
    ensures Pow2(j + 54) > Pow2(j) && Rounded(Pow2(j + 54) - Pow2(j)) == Pow2(j + 54)
    ensures Rounded(Pow2(j + 54) - Pow2(j) - 1) < Pow2(j + 54)
  {
    var k, half, g := TWO53 - 1, Pow2(j), Pow2(j + 1);
    TopOfBinade(j);
    var n := Pow2(j + 54) - half;
    ScaleOf(k, half, j + 1);
    ScaleOf(k, half - 1, j + 1);
    EdgeRounds(k, half, g, n);
    EdgeRounds(k, half, g, n - 1);
  }

  lemma SignificandBits()
    ensures Pow2(53) == TWO53
  {
    assert Pow2(13) == 0x2000;
    PowSum(13, 13);
    PowSum(26, 1);
    PowSum(26, 27);
  }

  lemma OneLess(k: nat, g: nat)
    requires k > 0
    ensures k * g == (k - 1) * g + g
  {
  }

  /** With the bound of the doubles at 2^(j + 54), a number is converted to infinity exactly from
      half a unit below it on, and to the nearest double before. */
  lemma InfiniteExactlyWhen(n: nat, j: nat)
    requires Pow2(j + 54) == OVERFLOW
    ensures DoubleOf(n) == if n >= OVERFLOW - Pow2(j) then Infinite else Finite(Rounded(n))
  {
    AtTheEdge(j);
    var edge := OVERFLOW - Pow2(j);
    if n >= edge { RoundedGrows(edge, n); } else { RoundedGrows(n, edge - 1); }
  }
}

/** The constants of the hash are the bits of roots of primes that FIPS 180-4 says they are. */
module Sha256Checks {
  import opened Words
  import opened Sha256Spec

  /** The first sixty-four primes, in rows of eight. */
  function PrimeRow(r: nat): (p: seq<nat>)
    ensures |p| == 8
  {
    match r
    case 0 => [2, 3, 5, 7, 11, 13, 17, 19]
    case 1 => [23, 29, 31, 37, 41, 43, 47, 53]
    case 2 => [59, 61, 67, 71, 73, 79, 83, 89]
    case 3 => [97, 101, 103, 107, 109, 113, 127, 131]
    case 4 => [137, 139, 149, 151, 157, 163, 167, 173]
    case 5 => [179, 181, 191, 193, 197, 199, 211, 223]
    case 6 => [227, 229, 233, 239, 241, 251, 257, 263]
    case _ => [269, 271, 277, 281, 283, 293, 307, 311]
  }

  ghost predicate RowIsCubeRoots(r: nat) {
    forall i :: 0 <= i < 8 ==> CubeRootBits(PrimeRow(r)[i], CubeRoot(PrimeRow(r)[i]), ConstantRow(r)[i])
  }

  /** `c` is the first 32 bits of the fractional part of the cube root of `p`, whose whole part is `n`. */
  predicate CubeRootBits(p: nat, n: nat, c: nat) {
    var r := n * U32_LIMIT + c;
    && n * n * n <= p < (n + 1) * (n + 1) * (n + 1) && c < U32_LIMIT
    && r * r * r <= p * U32_LIMIT * U32_LIMIT * U32_LIMIT < (r + 1) * (r + 1) * (r + 1)
  }

  function CubeRoot(p: nat): nat {
    if p < 8 then 1 else if p < 27 then 2 else if p < 64 then 3 else if p < 125 then 4 else if p < 216 then 5 else 6
  }

  lemma Row0()
    ensures RowIsCubeRoots(0)
  {
  }

  lemma Row1()
    ensures RowIsCubeRoots(1)
  {
  }

  lemma Row2()
    ensures RowIsCubeRoots(2)
  {
  }

  lemma Row3()
    ensures RowIsCubeRoots(3)
  {
  }

  lemma Row4()
    ensures RowIsCubeRoots(4)
  {
  }

  lemma Row5()
    ensures RowIsCubeRoots(5)
  {
  }

  lemma Row6()
    ensures RowIsCubeRoots(6)
  {
  }

  lemma Row7()
    ensures RowIsCubeRoots(7)
  {
  }

  /** Every round constant is the first 32 bits of the fractional part of the cube root of its prime
      (section 4.2.2 of FIPS 180-4). */
  lemma RoundConstantsAreCubeRoots(r: nat)
    requires r < 8
    ensures RowIsCubeRoots(r)
  {
    if r == 0 { Row0(); }
    else if r == 1 { Row1(); }
    else if r == 2 { Row2(); }
    else if r == 3 { Row3(); }
    else if r == 4 { Row4(); }
    else if r == 5 { Row5(); }
    else if r == 6 { Row6(); }
    else { Row7(); }
  }

  predicate SquareRootBits(p: nat, n: nat, c: nat) {
    var r := n * U32_LIMIT + c;
    n * n <= p < (n + 1) * (n + 1) && c < U32_LIMIT && r * r <= p * U32_LIMIT * U32_LIMIT < (r + 1) * (r + 1)
  }

  function SquareRoot(p: nat): nat {
    if p < 4 then 1 else if p < 9 then 2 else if p < 16 then 3 else 4
  }

  /** Every initial hash word is the first 32 bits of the fractional part of the square root of its prime
      (section 5.3.3 of FIPS 180-4). */
  lemma InitialHashIsSquareRoots()
    ensures forall i :: 0 <= i < 8 ==> SquareRootBits(PrimeRow(0)[i], SquareRoot(PrimeRow(0)[i]), InitialWords()[i])
  {
  }
}

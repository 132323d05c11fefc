/** Powers of natural numbers. */
module Powers {

  function Pow(base: nat, exponent: nat): (r: nat)
    ensures base > 0 ==> r > 0
  {
    if exponent == 0 then 1 else base * Pow(base, exponent - 1)
  }

  lemma {:induction false} PowSum(base: nat, m: nat, n: nat)
    ensures Pow(base, m + n) == Pow(base, m) * Pow(base, n)
  {
    if m > 0 {
      PowSum(base, m - 1, n);
      assert Pow(base, m + n) == base * (Pow(base, m - 1) * Pow(base, n));
    }
  }
}

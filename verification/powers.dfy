/** Powers of two, the growth of every exponential backoff. */
module Powers {

  function Pow2(n: nat): real {
    if n == 0 then 1.0 else 2.0 * Pow2(n - 1)
  }

  lemma {:induction false} Pow2Positive(n: nat)
    ensures Pow2(n) >= 1.0
  {
    if n > 0 { Pow2Positive(n - 1); }
  }
}

/** Arithmetic shared by the models. */
module Numbers {
  function Min(a: nat, b: nat): nat { if a < b then a else b }

  /** 1 for true: predicates add up to counts. */
  function One(b: bool): nat { if b then 1 else 0 }

  function Pow2(k: nat): (p: nat)
    ensures p > 0
  {
    if k == 0 then 1 else 2 * Pow2(k - 1)
  }

  lemma DoubleTimes(x: nat, y: nat)
    ensures 2 * (x * y) == (2 * x) * y
  {
  }

  lemma {:induction false} Pow2Adds(i: nat, j: nat)
    ensures Pow2(i + j) == Pow2(i) * Pow2(j)
  {
    if i > 0 {
      Pow2Adds(i - 1, j);
      DoubleTimes(Pow2(i - 1), Pow2(j));
      assert i + j - 1 == i - 1 + j;
    }
  }

  lemma {:induction false} Pow2Grows(i: nat, j: nat)
    requires i <= j
    ensures Pow2(i) <= Pow2(j)
  {
    if i < j { Pow2Grows(i, j - 1); }
  }
}

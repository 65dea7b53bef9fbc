/** Facts about remainders modulo six, the size of the ring. */
module RingArith {

  /** Reducing a partial sum first does not change the remainder. */
  lemma RemAbsorbs(a: int, b: int)
    ensures (a % 6 + b) % 6 == (a + b) % 6
  {
  }

  /** One more step wraps from five back to zero. */
  lemma RemStep(a: int)
    ensures (a + 1) % 6 == (if a % 6 == 5 then 0 else a % 6 + 1)
  {
  }

  /** Shifting by six keeps the remainder. */
  lemma RemPeriodic(a: int)
    ensures (a + 6) % 6 == a % 6
  {
  }

  /** Shifting by one to five changes the remainder. */
  lemma RemMoves(a: int, k: int)
    requires 0 < k < 6
    ensures (a + k) % 6 != a % 6
  {
  }

  /** Two numbers have the same remainder after subtracting three exactly when they had it before. */
  lemma RemOffsetAgrees(a: int, b: int)
    ensures (a - 3) % 6 == (b - 3) % 6 <==> a % 6 == b % 6
  {
    RemAbsorbs(a, -3);
    RemAbsorbs(b, -3);
  }
}

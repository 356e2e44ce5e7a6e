/** Facts about rounding down that the contracts' fixed-point arithmetic rests on. */
module Division {

  lemma DivideRemainder(a: nat, b: nat)
    requires b > 0
    ensures b * (a / b) <= a < b * (a / b) + b
    ensures a % b == a - b * (a / b)
  {
  }

  lemma {:induction false} DivideMonotone(a: nat, c: nat, b: nat)
    requires b > 0 && a <= c
    ensures a / b <= c / b
  {
    assert b * (a / b) < b * (c / b + 1);
    CancelFactorStrict(a / b, c / b + 1, b);
  }

  lemma MultiplyMonotone(a: nat, c: nat, b: nat)
    requires a <= c
    ensures a * b <= c * b
  {
  }

  /** Anything at most a / b, times b, is at most a; and conversely. */
  lemma {:induction false} DivideGalois(a: nat, b: nat, q: nat)
    requires b > 0
    ensures q <= a / b <==> q * b <= a
  {
    DivideRemainder(a, b);
    if q <= a / b {
      MultiplyMonotone(q, a / b, b);
    } else {
      MultiplyMonotone(a / b + 1, q, b);
    }
  }

  lemma CancelFactor(a: int, c: int, b: int)
    requires b > 0 && a * b <= c * b
    ensures a <= c
  {
  }

  lemma CancelFactorStrict(a: int, c: int, b: int)
    requires b > 0 && a * b < c * b
    ensures a < c
  {
  }

  lemma Distribute(a: int, c: int, b: int)
    ensures (a + c) * b == a * b + c * b
  {
  }
}

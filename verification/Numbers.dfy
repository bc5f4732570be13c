/** Arithmetic shared by the odometers. */
module Numbers {

  function Zeros(k: nat): (w: seq<nat>)
    ensures |w| == k && forall i :: 0 <= i < k ==> w[i] == 0
  {
    seq(k, _ => 0)
  }

  lemma {:induction false} MulMono(p: nat, q: nat, b: nat)
    requires p <= q
    ensures p * b <= q * b && b * p <= b * q
  {
    if p < q {
      MulMono(p, q - 1, b);
      assert q * b == (q - 1) * b + b;
    }
  }

  /** A number is determined by quotient and remainder. */
  lemma DivMod(q: nat, r: nat, b: nat)
    requires r < b
    ensures (q * b + r) / b == q && (q * b + r) % b == r
  {
    var x := q * b + r;
    var d := x / b - q;
    assert x == x / b * b + x % b;
    assert d * b == r - x % b;
  }
}

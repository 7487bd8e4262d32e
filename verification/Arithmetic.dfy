// Division with remainder, as the timing and bit-string proofs need it.
module Arithmetic {

  lemma MulSign(p: nat, d: int)
    ensures d >= 1 ==> p * d >= p
    ensures d <= -1 ==> p * d + p <= 0
  {
  }

  lemma RemainderIs(p: nat, q: int, r: nat)
    requires r < p
    ensures (p * q + r) % p == r && (p * q + r) / p == q
  {
    var x := p * q + r;
    var d := x / p - q;
    assert p * d == r - x % p by {
      assert p * (x / p - q) == p * (x / p) - p * q;
    }
    MulSign(p, d);
  }

  // Whole multiples of p do not matter modulo p.
  lemma SameRemainder(p: nat, q: int, x: int)
    requires p > 0
    ensures (p * q + x) % p == x % p
  {
    var c, e := x / p, x % p;
    RemainderIs(p, q + c, e);
    assert p * q + x == p * (q + c) + e by {
      assert p * (q + c) == p * q + p * c;
    }
  }
}

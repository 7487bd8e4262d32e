// ASN.1 BIT STRINGs of up to 8, 16 and 32 bits read into integers.
module BitString {
  import opened Arithmetic

  type Byte = n: nat | n < 256

  // buf, and the number of low-order bits of its last byte that are not used.
  datatype BitStr = BitStr(buf: seq<Byte>, bitsUnused: nat)

  function Pow2(n: nat): (p: nat)
    ensures p > 0
  {
    if n == 0 then 1 else 2 * Pow2(n - 1)
  }

  // The big-endian number the bytes spell.
  function BigEndian(buf: seq<Byte>): nat {
    if buf == [] then 0 else 256 * BigEndian(buf[..|buf|-1]) + buf[|buf|-1]
  }

  // v is the bit string as a number: the bytes' number with the unused bits cut
  // off. Stated without division; ValueIsQuotient gives it with.
  predicate IsValue(s: BitStr, v: nat) {
    Covers(v, Pow2(s.bitsUnused), BigEndian(s.buf))
  }

  predicate Covers(v: nat, p: nat, x: nat) {
    Product(v, p) <= x < Product(v, p) + p
  }

  function Product(a: nat, b: nat): nat {
    a * b
  }

  lemma ValueIsQuotient(s: BitStr, v: nat)
    requires IsValue(s, v)
    ensures v == BigEndian(s.buf) / Pow2(s.bitsUnused)
  {
    var x, p := BigEndian(s.buf), Pow2(s.bitsUnused);
    DivUnique(x, p, v, x - Product(v, p));
  }

  lemma DivUnique(x: nat, p: nat, q: nat, r: nat)
    requires p > 0 && r < p && x == Product(q, p) + r
    ensures x / p == q && x % p == r
  {
    RemainderIs(p, q, r);
  }

  // Bitwise or.
  function Or(a: nat, b: nat): nat
    decreases a + b
  {
    if a == 0 then b
    else if b == 0 then a
    else 2 * Or(a / 2, b / 2) + if a % 2 == 1 || b % 2 == 1 then 1 else 0
  }

  // Or adds where the bits do not overlap.
  lemma {:induction false} OrOfDisjoint(a: nat, b: nat, k: nat)
    requires b < Pow2(k)
    ensures Or(Product(a, Pow2(k)), b) == Product(a, Pow2(k)) + b
    decreases k
  {
    if k > 0 && a > 0 && b > 0 {
      var x := Product(a, Pow2(k - 1));
      assert Product(a, Pow2(k)) == 2 * x;
      MulSign(Pow2(k - 1), a);
      OrOfDisjoint(a, b / 2, k - 1);
    }
  }

  lemma {:induction false} Pow2Add(m: nat, n: nat)
    ensures Pow2(m + n) == Product(Pow2(m), Pow2(n))
  {
    if m > 0 {
      Pow2Add(m - 1, n);
    }
  }

  lemma Pow2Eight()
    ensures Pow2(8) == 256
  {
    assert Pow2(3) == 8;
    assert Pow2(6) == 64;
  }

  // A byte shifted left by `shift` and or-ed below the bytes before it.
  lemma AppendByte(high: nat, low: Byte, shift: nat)
    ensures Or(Product(high, Pow2(shift + 8)), Product(low, Pow2(shift))) == Product(256 * high + low, Pow2(shift))
  {
    var p := Pow2(shift);
    Pow2Add(8, shift);
    Pow2Eight();
    assert Pow2(shift + 8) == Product(256, p);
    MulSign(p, 256 - low);
    assert Product(low, p) < Product(256, p) by { Distribute(256 - low, low, p); }
    OrOfDisjoint(high, Product(low, p), shift + 8);
    Associate(high, 256, p);
    Distribute(256 * high, low, p);
  }

  lemma Distribute(a: nat, b: nat, p: nat)
    ensures Product(a + b, p) == Product(a, p) + Product(b, p)
  {
  }

  lemma Associate(a: nat, b: nat, p: nat)
    ensures Product(a, Product(b, p)) == Product(a * b, p)
  {
  }

  // The last byte, shifted right by the unused bits.
  lemma LastByte(s: BitStr, result: nat, low: nat)
    requires s.buf != [] && s.bitsUnused < 8
    requires result == Product(BigEndian(s.buf[..|s.buf|-1]), Pow2(8 - s.bitsUnused))
    requires low == ShiftRight(s.buf[|s.buf|-1], s.bitsUnused)
    ensures IsValue(s, Or(result, low))
  {
    var high, byte: nat, u := BigEndian(s.buf[..|s.buf|-1]), s.buf[|s.buf|-1], s.bitsUnused;
    var p, q := Pow2(u), Pow2(8 - u);
    assert Product(q, p) == 256 by { Pow2Add(8 - u, u); Pow2Eight(); }
    BelowQuotient(low, p, q, byte);
    OrOfDisjoint(high, low, 8 - u);
    Combine(high, low, p, q, byte);
  }

  lemma Combine(high: nat, low: nat, p: nat, q: nat, byte: nat)
    requires Product(q, p) == 256 && Covers(low, p, byte)
    ensures Covers(Product(high, q) + low, p, 256 * high + byte)
  {
    Distribute(Product(high, q), low, p);
    Associate(high, q, p);
  }

  lemma BelowQuotient(low: nat, p: nat, q: nat, byte: nat)
    requires Covers(low, p, byte) && byte < Product(q, p)
    ensures low < q
  {
    MulSign(p, low - q);
    assert (low - q) * p == low * p - q * p;
  }

  // b >> n
  function ShiftRight(b: nat, n: nat): (r: nat)
    ensures Covers(r, Pow2(n), b)
  {
    if n == 0 then b
    else
      var half := ShiftRight(b, n - 1);
      Halved(half, n, b);
      half / 2
  }

  lemma Halved(v: nat, n: nat, x: nat)
    requires n > 0 && Covers(v, Pow2(n - 1), x)
    ensures Covers(v / 2, Pow2(n), x)
  {
    var h, p := v / 2, Pow2(n - 1);
    Distribute(2 * h, v % 2, p);
    Associate(h, 2, p);
    assert v % 2 == 0 || v % 2 == 1;
  }

  // b << n
  function ShiftLeft(b: nat, n: nat): nat {
    Product(b, Pow2(n))
  }

  // The size check failing, the code stops the program.
  datatype Option<T> = None | Some(value: T)

  // BIT_STRING_to_uint32
  method ToUint32(s: BitStr) returns (r: Option<nat>)
    requires s.bitsUnused < 8
    ensures r == None <==> !(0 < |s.buf| <= 4)
    ensures r.Some? ==> IsValue(s, r.value) && r.value < 0x1_0000_0000
  {
    if !(0 < |s.buf| <= 4) {
      return None;
    }
    var result, index, n := 0, 0, |s.buf|;
    var shift: int := (n - 1) * 8 - s.bitsUnused;
    while index < n - 1
      invariant 0 <= index <= n - 1
      invariant shift == (n - 1 - index) * 8 - s.bitsUnused
      invariant result == Product(BigEndian(s.buf[..index]), Pow2(shift + 8))
    {
      AppendByte(BigEndian(s.buf[..index]), s.buf[index], shift);
      assert s.buf[..index + 1][..index] == s.buf[..index];
      result := Or(result, ShiftLeft(s.buf[index], shift));
      shift := shift - 8;
      index := index + 1;
    }
    LastByte(s, result, ShiftRight(s.buf[index], s.bitsUnused));
    result := Or(result, ShiftRight(s.buf[index], s.bitsUnused));
    Fits(s, result);
    return Some(result);
  }

  // BIT_STRING_to_uint16: a switch that falls through from size 2 to size 1.
  method ToUint16(s: BitStr) returns (r: Option<nat>)
    requires s.bitsUnused < 8
    ensures r == None <==> !(0 < |s.buf| <= 2)
    ensures r.Some? ==> IsValue(s, r.value) && r.value < 0x1_0000
  {
    if !(0 < |s.buf| <= 2) {
      return None;
    }
    var result, index := 0, 0;
    if |s.buf| == 2 {
      AppendByte(0, s.buf[0], 8 - s.bitsUnused);
      assert s.buf[..1] == [s.buf[0]] && s.buf[..1][..0] == [];
      result := Or(result, ShiftLeft(s.buf[index], 8 - s.bitsUnused));
      index := index + 1;
    }
    LastByte(s, result, ShiftRight(s.buf[index], s.bitsUnused));
    result := Or(result, ShiftRight(s.buf[index], s.bitsUnused));
    Fits(s, result);
    return Some(result);
  }

  // BIT_STRING_to_uint8
  method ToUint8(s: BitStr) returns (r: Option<nat>)
    requires s.bitsUnused < 8
    ensures r == None <==> |s.buf| != 1
    ensures r.Some? ==> IsValue(s, r.value) && r.value < 0x100
  {
    if |s.buf| != 1 {
      return None;
    }
    assert s.buf[..0] == [];
    LastByte(s, 0, ShiftRight(s.buf[0], s.bitsUnused));
    Fits(s, ShiftRight(s.buf[0], s.bitsUnused));
    return Some(ShiftRight(s.buf[0], s.bitsUnused));
  }

  // No two numbers are the value of one bit string, so the three readers agree
  // on the sizes they share.
  lemma OneValue(s: BitStr, v: nat, w: nat)
    requires IsValue(s, v) && IsValue(s, w)
    ensures v == w
  {
    ValueIsQuotient(s, v);
    ValueIsQuotient(s, w);
  }

  // The value of n bytes fits into n bytes, so no reader truncates.
  lemma Fits(s: BitStr, v: nat)
    requires IsValue(s, v)
    ensures |s.buf| == 1 ==> v < 0x100
    ensures |s.buf| <= 2 ==> v < 0x1_0000
    ensures |s.buf| <= 4 ==> v < 0x1_0000_0000
  {
    BigEndianBound(s.buf);
    MulSign(v, Pow2(s.bitsUnused));
    assert v <= BigEndian(s.buf);
  }

  function Pow256(n: nat): nat {
    if n == 0 then 1 else 256 * Pow256(n - 1)
  }

  lemma {:induction false} BigEndianBound(buf: seq<Byte>)
    ensures BigEndian(buf) < Pow256(|buf|)
    ensures Pow256(1) == 0x100
    ensures |buf| <= 2 ==> Pow256(|buf|) <= 0x1_0000
    ensures |buf| <= 4 ==> Pow256(|buf|) <= 0x1_0000_0000
  {
    if buf != [] {
      BigEndianBound(buf[..|buf|-1]);
    }
  }
}

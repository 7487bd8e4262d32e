// SSE2 stand-ins for instructions of SSE3 and SSE4.1, against what the wider
// instructions do lane by lane. A 128-bit register is its lanes, lane 0 first.
module Sse {

  type Bytes = r: seq<bv8> | |r| == 16 witness seq(16, _ => 0)
  type Words = w: seq<bv16> | |w| == 8 witness seq(8, _ => 0)
  type Doubles = d: seq<bv32> | |d| == 4 witness seq(4, _ => 0)

  // A byte as a two's complement number.
  function Signed8(x: bv8): (n: int)
    ensures -0x80 <= n < 0x80 && (n - x as int) % 0x100 == 0
  {
    if x < 0x80 then x as int else x as int - 0x100
  }

  // Two adjacent lanes read as one wider lane.
  function Join8(low: bv8, high: bv8): bv16 {
    (high as bv16 << 8) | low as bv16
  }

  function Join16(low: bv16, high: bv16): bv32 {
    (high as bv32 << 16) | low as bv32
  }

  // The saturation of packus: a signed word becomes an unsigned byte.
  function Saturate(w: bv16): bv8 {
    if w >= 0x8000 then 0 else if w > 0xff then 0xff else w as bv8
  }

  function UnpackLow8(a: Bytes, b: Bytes): Words {
    seq(8, i requires 0 <= i < 8 => Join8(a[i], b[i]))
  }

  function UnpackHigh8(a: Bytes, b: Bytes): Words {
    seq(8, i requires 0 <= i < 8 => Join8(a[i + 8], b[i + 8]))
  }

  function UnpackLow16(a: Words, b: Words): Doubles {
    seq(4, i requires 0 <= i < 4 => Join16(a[i], b[i]))
  }

  function PackUnsigned(low: Words, high: Words): Bytes {
    seq(16, i requires 0 <= i < 16 => if i < 8 then Saturate(low[i]) else Saturate(high[i - 8]))
  }

  function And(a: Bytes, b: Bytes): Bytes {
    seq(16, i requires 0 <= i < 16 => a[i] & b[i])
  }

  function AndNot(a: Bytes, b: Bytes): Bytes {
    seq(16, i requires 0 <= i < 16 => !a[i] & b[i])
  }

  function Or(a: Bytes, b: Bytes): Bytes {
    seq(16, i requires 0 <= i < 16 => a[i] | b[i])
  }

  function Set1(x: bv8): Bytes {
    seq(16, _ => x)
  }

  // All ones in the lanes where the signed comparison holds.
  function CmpGt(a: Bytes, b: Bytes): Bytes {
    seq(16, i requires 0 <= i < 16 => if Signed8(a[i]) > Signed8(b[i]) then 0xff else 0)
  }

  function CmpEq(a: Bytes, b: Bytes): Bytes {
    seq(16, i requires 0 <= i < 16 => if a[i] == b[i] then 0xff else 0)
  }

  lemma MaskBits(x: bv8, y: bv8)
    ensures x & 0xff == x && x & 0 == 0 && !(0xff as bv8) & y == 0 && !(0 as bv8) & y == y
    ensures x | 0 == x && 0 | y == y && 0xff | y == 0xff
  {
  }

  // --- Sign extension ---

  // ssp_cvtepi8_epi16_SSE2
  function CvtEpi8Epi16(a: Bytes): Words {
    var c := UnpackLow8(a, Set1(0));
    seq(8, i requires 0 <= i < 8 => Extend8(c[i]))
  }

  function Extend8(c: bv16): bv16 {
    c + (c & 0x80) * 0x1fe
  }

  // ssp_cvtepi16_epi32_SSE2
  function CvtEpi16Epi32(a: Words): Doubles {
    var c := UnpackLow16(a, seq(8, _ => 0xffff));
    seq(4, i requires 0 <= i < 4 => Extend16(c[i]))
  }

  function Extend16(c: bv32): bv32 {
    c + ((!c & 0x8000) << 1)
  }

  // The new high half of every lane repeats the sign bit of the old lane, and
  // the low half is the old lane: multiply and add carry nothing into it.
  lemma SignExtendsBytes(a: Bytes, i: nat)
    requires i < 8
    ensures CvtEpi8Epi16(a)[i] == Join8(a[i], if a[i] >= 0x80 then 0xff else 0)
  {
    ExtendedByte(a[i]);
  }

  lemma SignExtendsWords(a: Words, i: nat)
    requires i < 4
    ensures CvtEpi16Epi32(a)[i] == Join16(a[i], if a[i] >= 0x8000 then 0xffff else 0)
  {
    ExtendedWord(a[i]);
  }

  lemma ExtendedByte(x: bv8)
    ensures Extend8(Join8(x, 0)) == Join8(x, if x >= 0x80 then 0xff else 0)
  {
  }

  lemma ExtendedWord(x: bv16)
    ensures Extend16(Join16(x, 0xffff)) == Join16(x, if x >= 0x8000 then 0xffff else 0)
  {
    var c := Join16(x, 0xffff);
    SignBit(x);
    Halves(x);
    if x < 0x8000 {
      CarriesOut(c);
    } else {
      Kept(c);
    }
  }

  lemma SignBit(x: bv16)
    ensures Join16(x, 0xffff) & 0x8000 == 0 <==> x < 0x8000
  {
  }

  lemma Halves(x: bv16)
    ensures Join16(x, 0xffff) == 0xffff_0000 + x as bv32
    ensures Join16(x, 0) == x as bv32
  {
  }

  lemma CarriesOut(c: bv32)
    requires c & 0x8000 == 0
    ensures Extend16(c) == c + 0x1_0000
  {
  }

  lemma Kept(c: bv32)
    requires c & 0x8000 != 0
    ensures Extend16(c) == c
  {
  }

  // --- Signed maximum ---

  // ssp_logical_bitwise_select_SSE2
  function Select(a: Bytes, b: Bytes, mask: Bytes): Bytes {
    Or(And(a, mask), AndNot(mask, b))
  }

  // ssp_max_epi8_SSE2
  function MaxEpi8(a: Bytes, b: Bytes): Bytes {
    Select(a, b, CmpGt(a, b))
  }

  lemma MaxIsLarger(a: Bytes, b: Bytes, i: nat)
    requires i < 16
    ensures MaxEpi8(a, b)[i] == a[i] || MaxEpi8(a, b)[i] == b[i]
    ensures Signed8(MaxEpi8(a, b)[i]) >= Signed8(a[i]) && Signed8(MaxEpi8(a, b)[i]) >= Signed8(b[i])
  {
    SelectLane(a, b, CmpGt(a, b), i);
  }

  lemma SelectLane(a: Bytes, b: Bytes, mask: Bytes, i: nat)
    requires i < 16
    ensures mask[i] == 0xff ==> Select(a, b, mask)[i] == a[i]
    ensures mask[i] == 0 ==> Select(a, b, mask)[i] == b[i]
  {
    MaskBits(a[i], b[i]);
  }

  // --- Shuffle ---

  // ssp_comge_epi8_SSE2
  function CmpGe(a: Bytes, b: Bytes): Bytes {
    Or(CmpEq(a, b), CmpGt(a, b))
  }

  lemma NotNegative(mask: Bytes, i: nat)
    requires i < 16
    ensures CmpGe(mask, Set1(0))[i] == if mask[i] < 0x80 then 0xff else 0
  {
    MaskBits(mask[i], 0);
    MaskBits(0, 0xff);
  }

  // The lane a shuffle mask byte names.
  function Index(m: bv8): (k: nat)
    ensures k < 16 && k == m as nat % 16
  {
    (m & 0x0f) as nat
  }

  // The sixteen assignments through the union, every one of which is needed:
  // what the union holds before them is of no account.
  method Gather<T>(a: seq<T>, index: seq<nat>) returns (r: seq<T>)
    requires |a| == 16 && |index| == 16 && forall k :: 0 <= k < 16 ==> index[k] < 16
    ensures |r| == 16 && forall k :: 0 <= k < 16 ==> r[k] == a[index[k]]
  {
    r := a;
    r := r[0 := a[index[0]]];
    r := r[1 := a[index[1]]];
    r := r[2 := a[index[2]]];
    r := r[3 := a[index[3]]];
    r := r[4 := a[index[4]]];
    r := r[5 := a[index[5]]];
    r := r[6 := a[index[6]]];
    r := r[7 := a[index[7]]];
    r := r[8 := a[index[8]]];
    r := r[9 := a[index[9]]];
    r := r[10 := a[index[10]]];
    r := r[11 := a[index[11]]];
    r := r[12 := a[index[12]]];
    r := r[13 := a[index[13]]];
    r := r[14 := a[index[14]]];
    r := r[15 := a[index[15]]];
  }

  // ssp_shuffle_epi8_SSE2: gather, then zero the lanes whose mask byte is
  // negative.
  method ShuffleEpi8(a: Bytes, mask: Bytes) returns (r: Bytes)
    ensures forall i :: 0 <= i < 16 ==> r[i] == if mask[i] >= 0x80 then 0 else a[Index(mask[i])]
  {
    var maskZero := CmpGe(mask, Set1(0));
    var lanes: Bytes := Gather(a, seq(16, i requires 0 <= i < 16 => Index(mask[i])));
    r := And(lanes, maskZero);
    forall i | 0 <= i < 16
      ensures r[i] == if mask[i] >= 0x80 then 0 else a[Index(mask[i])]
    {
      NotNegative(mask, i);
      MaskBits(lanes[i], 0);
    }
  }

  // --- Insert ---

  // ssp_insert_epi8_SSE2: widen, insert a word, narrow. Nothing saturates.
  method InsertEpi8(a: Bytes, b: bv32, ndx: int) returns (r: Bytes)
    ensures r == a[ndx % 16 := (b & 0xff) as bv8]
  {
    var byte := (b & 0xff) as bv16;
    var high := UnpackHigh8(a, Set1(0));
    var low := UnpackLow8(a, Set1(0));
    match ndx % 16 {
      case 0 => low := low[0 := byte];
      case 1 => low := low[1 := byte];
      case 2 => low := low[2 := byte];
      case 3 => low := low[3 := byte];
      case 4 => low := low[4 := byte];
      case 5 => low := low[5 := byte];
      case 6 => low := low[6 := byte];
      case 7 => low := low[7 := byte];
      case 8 => high := high[0 := byte];
      case 9 => high := high[1 := byte];
      case 10 => high := high[2 := byte];
      case 11 => high := high[3 := byte];
      case 12 => high := high[4 := byte];
      case 13 => high := high[5 := byte];
      case 14 => high := high[6 := byte];
      case _ => high := high[7 := byte];
    }
    InsertedByte(b);
    forall i: nat | i < 16
      ensures Saturate(Join8(a[i], 0)) == a[i]
    {
      NarrowAfterWiden(a[i]);
    }
    r := PackUnsigned(low, high);
  }

  lemma NarrowAfterWiden(x: bv8)
    ensures Saturate(Join8(x, 0)) == x
  {
  }

  lemma InsertedByte(b: bv32)
    ensures Saturate((b & 0xff) as bv16) == (b & 0xff) as bv8
  {
  }
}

/** The two checksums of the runtime, and why neither lets a changed byte through: every
    step is injective in the running state and in the byte it absorbs. */
module Checksums {
  import opened Types
  import opened Endian

  // ----- exclusive or, bit by bit ----------------------------------------------------

  function Xor(a: nat, b: nat): nat {
    if a == 0 && b == 0 then 0
    else (if a % 2 != b % 2 then 1 else 0) + 2 * Xor(a / 2, b / 2)
  }

  function Pow2(k: nat): (p: nat)
    ensures p >= 1
  {
    if k == 0 then 1 else 2 * Pow2(k - 1)
  }

  lemma {:induction false} XorUndoes(a: nat, b: nat)
    ensures Xor(Xor(a, b), b) == a
    decreases a + b
  {
    if a != 0 || b != 0 {
      XorUndoes(a / 2, b / 2);
      var x := Xor(a, b);
      assert x % 2 == (if a % 2 != b % 2 then 1 else 0) && x / 2 == Xor(a / 2, b / 2);
    }
  }

  lemma {:induction false} XorCommutes(a: nat, b: nat)
    ensures Xor(a, b) == Xor(b, a)
    decreases a + b
  {
    if a != 0 || b != 0 {
      XorCommutes(a / 2, b / 2);
    }
  }

  lemma XorInjective(a: nat, a': nat, b: nat)
    requires Xor(a, b) == Xor(a', b)
    ensures a == a'
  {
    XorUndoes(a, b);
    XorUndoes(a', b);
  }

  lemma {:induction false} XorBound(a: nat, b: nat, k: nat)
    requires a < Pow2(k) && b < Pow2(k)
    ensures Xor(a, b) < Pow2(k)
  {
    if k != 0 && (a != 0 || b != 0) {
      XorBound(a / 2, b / 2, k - 1);
    }
  }

  /** A bit that only one operand can reach decides the size of the result. */
  lemma {:induction false} XorTopBit(a: nat, b: nat, k: nat)
    requires a < Pow2(k) <= b < Pow2(k + 1)
    ensures Pow2(k) <= Xor(a, b)
  {
    if k == 0 {
      assert a == 0 && b == 1;
      assert Xor(0, 1) == 1 + 2 * Xor(0, 0);
    } else {
      XorTopBit(a / 2, b / 2, k - 1);
    }
  }

  lemma PowerFacts()
    ensures Pow2(8) == 0x100 && Pow2(31) == 0x8000_0000 && Pow2(32) == U32_LIMIT && Pow2(64) == U64_LIMIT
  {
    assert Pow2(4) == 16;
    Pow2Splits(4, 4);
    Pow2Splits(8, 8);
    Pow2Splits(16, 16);
    Pow2Splits(32, 32);
    assert Pow2(32) == 2 * Pow2(31);
  }

  lemma {:induction false} Pow2Splits(a: nat, b: nat)
    ensures Pow2(a + b) == Pow2(a) * Pow2(b)
  {
    if a != 0 {
      Pow2Splits(a - 1, b);
    }
  }

  // ----- sequences that differ in one byte -------------------------------------------

  ghost predicate DifferOnlyAt(s: Bytes, t: Bytes, p: nat) {
    && |s| == |t|
    && p < |s|
    && s[p] != t[p]
    && forall i :: 0 <= i < |s| && i != p ==> s[i] == t[i]
  }

  // ----- the durable blob's 64-bit hash ----------------------------------------------

  const FNV_OFFSET: u64 := 1469598103934665603
  const FNV_PRIME: u64 := 1099511628211

  // FNV_PRIME * FNV_INVERSE == 1 + FNV_LAPS * 2^64
  const FNV_INVERSE: u64 := 14886173955864302971
  const FNV_LAPS: nat := 887285111055

  function FnvStep(h: u64, b: u8): u64 {
    Xor(h, b) * FNV_PRIME % U64_LIMIT
  }

  function Fnv(h: u64, data: Bytes): u64
    decreases |data|
  {
    if data == [] then h else Fnv(FnvStep(h, data[0]), data[1..])
  }

  method Fnv1a(data: Bytes) returns (h: u64)
    ensures h == Fnv(FNV_OFFSET, data)
  {
    h := FNV_OFFSET;
    for i := 0 to |data|
      invariant Fnv(h, data[i..]) == Fnv(FNV_OFFSET, data)
    {
      assert data[i..][0] == data[i] && data[i..][1..] == data[i + 1..];
      h := FnvStep(h, data[i]);
    }
  }

  /** Multiplication by the odd prime is undone by multiplication by its inverse. */
  lemma FnvMultiplyUndone(x: u64)
    ensures x * FNV_PRIME % U64_LIMIT * FNV_INVERSE % U64_LIMIT == x
  {
    var q := x * FNV_PRIME / U64_LIMIT;
    var r := x * FNV_PRIME % U64_LIMIT;
    assert x * FNV_PRIME == q * U64_LIMIT + r;
    assert r * FNV_INVERSE == x + (x * FNV_LAPS - q * FNV_INVERSE) * U64_LIMIT;
    ModOfShifted(x, x * FNV_LAPS - q * FNV_INVERSE);
  }

  lemma ModOfShifted(x: u64, k: int)
    ensures (x + k * U64_LIMIT) % U64_LIMIT == x
  {
  }

  lemma FnvStepInjective(h: u64, b: u8, h': u64, b': u8)
    requires FnvStep(h, b) == FnvStep(h', b')
    ensures b == b' ==> h == h'
    ensures h == h' ==> b == b'
  {
    PowerFacts();
    XorBound(h, b, 64);
    XorBound(h', b', 64);
    FnvMultiplyUndone(Xor(h, b));
    FnvMultiplyUndone(Xor(h', b'));
    if b == b' {
      XorInjective(h, h', b);
    }
    if h == h' {
      XorCommutes(h, b);
      XorCommutes(h, b');
      XorInjective(b, b', h);
    }
  }

  lemma {:induction false} FnvInjectiveInState(h: u64, h': u64, data: Bytes)
    requires Fnv(h, data) == Fnv(h', data)
    ensures h == h'
    decreases |data|
  {
    if data != [] {
      FnvInjectiveInState(FnvStep(h, data[0]), FnvStep(h', data[0]), data[1..]);
      FnvStepInjective(h, data[0], h', data[0]);
    }
  }

  lemma {:induction false} FnvDetectsOneByte(h: u64, s: Bytes, t: Bytes, p: nat)
    requires DifferOnlyAt(s, t, p)
    ensures Fnv(h, s) != Fnv(h, t)
    decreases |s|
  {
    if p == 0 {
      assert s[1..] == t[1..];
      if Fnv(h, s) == Fnv(h, t) {
        FnvInjectiveInState(FnvStep(h, s[0]), FnvStep(h, t[0]), s[1..]);
        FnvStepInjective(h, s[0], h, t[0]);
      }
    } else {
      FnvDetectsOneByte(FnvStep(h, s[0]), s[1..], t[1..], p - 1);
    }
  }

  lemma FnvFirstXor()
    ensures Xor(FNV_OFFSET, 131) == FNV_OFFSET - 131
  {
    hide Xor;
    assert Pow2(8) == 0x100;
    XorSame(FNV_OFFSET / 0x100, 131, 8);
  }

  /** The offset and the prime, by the hash of one byte. */
  lemma FnvKnownValue()
    ensures Fnv(FNV_OFFSET, [131]) == 4953019320629991680
  {
    hide Xor;
    FnvFirstXor();
    assert [131][1..] == [];
  }

  // ----- the frame CRC ---------------------------------------------------------------

  const CRC_POLYNOMIAL: u32 := 0xEDB8_8320

  /** One bit of the reflected CRC-32: shift, and fold the polynomial in when a one falls out.
      The source's mask `~((crc & 1) - 1)` is all ones exactly when the low bit is set. */
  function CrcBit(crc: u32): (r: u32) {
    PowerFacts();
    XorBound(crc / 2, if crc % 2 == 1 then CRC_POLYNOMIAL else 0, 32);
    Xor(crc / 2, if crc % 2 == 1 then CRC_POLYNOMIAL else 0)
  }

  function CrcBits(crc: u32, k: nat): u32
    decreases k
  {
    if k == 0 then crc else CrcBits(CrcBit(crc), k - 1)
  }

  function CrcAbsorb(crc: u32, b: u8): u32 {
    PowerFacts();
    XorBound(crc, b, 32);
    Xor(crc, b)
  }

  function CrcStep(crc: u32, b: u8): u32 {
    CrcBits(CrcAbsorb(crc, b), 8)
  }

  function Crc(crc: u32, data: Bytes): u32
    decreases |data|
  {
    if data == [] then crc else Crc(CrcStep(crc, data[0]), data[1..])
  }

  function Crc32(data: Bytes): u32 {
    0xFFFF_FFFF - Crc(0xFFFF_FFFF, data)
  }

  method ComputeCrc32(data: Bytes) returns (r: u32)
    ensures r == Crc32(data)
  {
    var crc: u32 := 0xFFFF_FFFF;
    for i := 0 to |data|
      invariant Crc(crc, data[i..]) == Crc(0xFFFF_FFFF, data)
    {
      assert data[i..][0] == data[i] && data[i..][1..] == data[i + 1..];
      ghost var before := crc;
      crc := CrcAbsorb(crc, data[i]);
      for k := 0 to 8
        invariant CrcBits(crc, 8 - k) == CrcStep(before, data[i])
      {
        crc := CrcBit(crc);
      }
    }
    r := 0xFFFF_FFFF - crc;
  }

  // ----- what fixes the two checksums ------------------------------------------------

  lemma {:induction false} XorSame(q: nat, b: nat, k: nat)
    requires b < Pow2(k)
    ensures Xor(q * Pow2(k) + b, b) == q * Pow2(k)
  {
    if k == 0 {
      XorZero(q);
    } else {
      var a := q * Pow2(k - 1);
      assert q * Pow2(k) == 2 * a;
      assert (2 * a + b) / 2 == a + b / 2;
      XorSame(q, b / 2, k - 1);
    }
  }

  lemma {:induction false} XorZero(a: nat)
    ensures Xor(a, 0) == a
  {
    if a != 0 {
      XorZero(a / 2);
    }
  }

  lemma CrcBitEven(a: nat)
    requires 2 * a < U32_LIMIT
    ensures CrcBit(2 * a) == a
  {
    XorZero(a);
  }

  lemma {:induction false} CrcBitsShift(q: nat, k: nat)
    requires q * Pow2(k) < U32_LIMIT
    ensures CrcBits(q * Pow2(k), k) == q
  {
    hide CrcBit;
    if k != 0 {
      var a := q * Pow2(k - 1);
      assert q * Pow2(k) == 2 * a;
      CrcBitEven(a);
      CrcBitsShift(q, k - 1);
    }
  }

  /** A byte equal to the register's low byte cancels it. */
  lemma CrcStepCancels(c: u32)
    ensures CrcStep(c, c % 0x100) == c / 0x100
  {
    PowerFacts();
    XorSame(c / 0x100, c % 0x100, 8);
    CrcBitsShift(c / 0x100, 8);
  }

  lemma {:induction false} CrcCancels(c: u32, n: nat)
    requires c < ByteRange(n)
    ensures Crc(c, LittleEndian(n, c)) == 0
    decreases n
  {
    hide CrcStep;
    if n != 0 {
      CrcStepCancels(c);
      assert LittleEndian(n, c)[1..] == LittleEndian(n - 1, c / 0x100);
      CrcCancels(c / 0x100, n - 1);
    }
  }

  lemma {:induction false} CrcAppend(c: u32, s: Bytes, t: Bytes)
    ensures Crc(c, s + t) == Crc(Crc(c, s), t)
    decreases |s|
  {
    if s == [] {
      assert s + t == t;
    } else {
      assert (s + t)[1..] == s[1..] + t;
      CrcAppend(CrcStep(c, s[0]), s[1..], t);
    }
  }

  /** The register is the remainder of a division: whatever came before it, the register's
      own four bytes bring it to zero. */
  lemma RemainderCancels(c: u32, s: Bytes)
    ensures Crc(c, s + LittleEndian(4, Crc(c, s))) == 0
  {
    CrcAppend(c, s, LittleEndian(4, Crc(c, s)));
    CrcCancels(Crc(c, s), 4);
  }

  lemma Generator()
    ensures Crc(0, [0x80]) == 0xEDB8_8320
  {
    PowerFacts();
    XorSame(0, 0x80, 8);
    XorCommutes(0, 0x80);
    XorZero(0x80);
    XorCommutes(0, CRC_POLYNOMIAL);
    XorZero(CRC_POLYNOMIAL);
    CrcBitsSplit(0x80, 7, 1);
    assert Pow2(7) == 0x80;
    CrcBitsShift(1, 7);
    assert CrcBits(1, 1) == CrcBits(CrcBit(1), 0);
    assert [0x80][1..] == [];
  }

  lemma {:induction false} CrcBitsSplit(c: u32, j: nat, k: nat)
    ensures CrcBits(c, j + k) == CrcBits(CrcBits(c, j), k)
    decreases j
  {
    if j != 0 {
      CrcBitsSplit(CrcBit(c), j - 1, k);
    }
  }

  lemma AllOnes()
    ensures Crc(0xFFFF_FFFF, [0xFF, 0xFF, 0xFF, 0xFF]) == 0
  {
    hide Crc, CrcStep;
    assert LittleEndian(4, 0xFFFF_FFFF) == [0xFF, 0xFF, 0xFF, 0xFF];
    CrcCancels(0xFFFF_FFFF, 4);
  }

  /** The divisor is the reflected generator of IEEE 802.3, the register starts as all ones
      and the result is its complement. */
  lemma CrcKnownValues()
    ensures Crc(0, [0x80]) == 0xEDB8_8320
    ensures Crc32([0xFF, 0xFF, 0xFF, 0xFF]) == 0xFFFF_FFFF
    ensures Crc32([0xFF, 0xFF, 0xFF, 0xFF, 0x80]) == 0x1247_7CDF
  {
    hide Crc, CrcStep;
    Generator();
    AllOnes();
    var ones := [0xFF, 0xFF, 0xFF, 0xFF];
    CrcAppend(0xFFFF_FFFF, ones, [0x80]);
    assert ones + [0x80] == [0xFF, 0xFF, 0xFF, 0xFF, 0x80];
  }

  lemma CrcBitInjective(c: u32, c': u32)
    requires CrcBit(c) == CrcBit(c')
    ensures c == c'
  {
    PowerFacts();
    CrcBitTop(c);
    CrcBitTop(c');
    XorInjective(c / 2, c' / 2, if c % 2 == 1 then CRC_POLYNOMIAL else 0);
  }

  /** The top bit of the result remembers the bit that fell out. */
  lemma CrcBitTop(c: u32)
    ensures CrcBit(c) >= 0x8000_0000 <==> c % 2 == 1
  {
    PowerFacts();
    if c % 2 == 1 {
      XorTopBit(c / 2, CRC_POLYNOMIAL, 31);
    } else {
      XorBound(c / 2, 0, 31);
    }
  }

  lemma {:induction false} CrcBitsInjective(c: u32, c': u32, k: nat)
    requires CrcBits(c, k) == CrcBits(c', k)
    ensures c == c'
    decreases k
  {
    if k != 0 {
      CrcBitsInjective(CrcBit(c), CrcBit(c'), k - 1);
      CrcBitInjective(c, c');
    }
  }

  lemma CrcStepInjective(c: u32, b: u8, c': u32, b': u8)
    requires CrcStep(c, b) == CrcStep(c', b')
    ensures b == b' ==> c == c'
    ensures c == c' ==> b == b'
  {
    CrcBitsInjective(CrcAbsorb(c, b), CrcAbsorb(c', b'), 8);
    if b == b' {
      XorInjective(c, c', b);
    }
    if c == c' {
      XorCommutes(c, b);
      XorCommutes(c, b');
      XorInjective(b, b', c);
    }
  }

  lemma {:induction false} CrcInjectiveInState(c: u32, c': u32, data: Bytes)
    requires Crc(c, data) == Crc(c', data)
    ensures c == c'
    decreases |data|
  {
    if data != [] {
      CrcInjectiveInState(CrcStep(c, data[0]), CrcStep(c', data[0]), data[1..]);
      CrcStepInjective(c, data[0], c', data[0]);
    }
  }

  lemma {:induction false} CrcDetectsOneByte(c: u32, s: Bytes, t: Bytes, p: nat)
    requires DifferOnlyAt(s, t, p)
    ensures Crc(c, s) != Crc(c, t)
    decreases |s|
  {
    if p == 0 {
      assert s[1..] == t[1..];
      if Crc(c, s) == Crc(c, t) {
        CrcInjectiveInState(CrcStep(c, s[0]), CrcStep(c, t[0]), s[1..]);
        CrcStepInjective(c, s[0], c, t[0]);
      }
    } else {
      CrcDetectsOneByte(CrcStep(c, s[0]), s[1..], t[1..], p - 1);
    }
  }
}

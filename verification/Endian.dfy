/** Little-endian integers of any width, and the two facts that make them a bijection. */
module Endian {
  import opened Types

  function ByteRange(n: nat): (p: nat)
    ensures p >= 1
  {
    if n == 0 then 1 else 0x100 * ByteRange(n - 1)
  }

  function LittleEndian(n: nat, v: nat): (s: Bytes)
    ensures |s| == n
  {
    if n == 0 then [] else [v % 0x100] + LittleEndian(n - 1, v / 0x100)
  }

  function FromLittleEndian(s: Bytes): (v: nat)
    ensures v < ByteRange(|s|)
  {
    if s == [] then 0 else s[0] + 0x100 * FromLittleEndian(s[1..])
  }

  lemma {:induction false} LittleEndianRead(n: nat, v: nat)
    requires v < ByteRange(n)
    ensures FromLittleEndian(LittleEndian(n, v)) == v
  {
    if n != 0 {
      LittleEndianRead(n - 1, v / 0x100);
      assert LittleEndian(n, v)[1..] == LittleEndian(n - 1, v / 0x100);
    }
  }

  lemma {:induction false} LittleEndianWritten(s: Bytes)
    ensures LittleEndian(|s|, FromLittleEndian(s)) == s
  {
    if s != [] {
      LittleEndianWritten(s[1..]);
      var v := FromLittleEndian(s);
      assert v % 0x100 == s[0] && v / 0x100 == FromLittleEndian(s[1..]);
    }
  }

  lemma WidthFacts()
    ensures ByteRange(4) == U32_LIMIT && ByteRange(8) == U64_LIMIT
  {
    assert ByteRange(4) == U32_LIMIT;
    assert ByteRange(8) == 0x1_0000_0000 * ByteRange(4);
  }
}

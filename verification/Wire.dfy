/** The record format of the plugin link: twelve packed bytes, a magic word
    first, all fields in the little-endian order of the host. */
module Wire {

  type Byte = x: int | 0 <= x < 0x100
  type UInt16 = x: int | 0 <= x < 0x1_0000
  type UInt32 = x: int | 0 <= x < 0x1_0000_0000

  const MAGIC: UInt32 := 0xAD9CBCE9
  const MAGIC_BYTES: seq<Byte> := [0xE9, 0xBC, 0x9C, 0xAD]
  const RECORD_SIZE: nat := 12

  /** A record without its magic word, which is the same in all of them. */
  datatype Record = Record(itype: UInt16, icode: UInt16, ivalue: UInt32)

  /** The bits of a C `int` stored into a `uint32_t`. */
  function ToUInt32(v: int): UInt32 {
    v % 0x1_0000_0000
  }

  function Le16(v: UInt16): seq<Byte> {
    [v % 0x100, v / 0x100]
  }

  function Le32(v: UInt32): seq<Byte> {
    [v % 0x100, v / 0x100 % 0x100, v / 0x1_0000 % 0x100, v / 0x100_0000]
  }

  function FromLe16(s: seq<Byte>): UInt16
    requires |s| == 2
  {
    (s[0] as int) + 0x100 * (s[1] as int)
  }

  function FromLe32(s: seq<Byte>): UInt32
    requires |s| == 4
  {
    (s[0] as int) + 0x100 * (s[1] as int) + 0x1_0000 * (s[2] as int) + 0x100_0000 * (s[3] as int)
  }

  function Encode(r: Record): (s: seq<Byte>)
    ensures |s| == RECORD_SIZE
  {
    MAGIC_BYTES + Le16(r.itype) + Le16(r.icode) + Le32(r.ivalue)
  }

  /** The test `r->magic == MAGIC` on the bytes at the start of `s`, byte by
      byte; `MagicWord` shows it to be the comparison of the 32-bit word. */
  predicate HasMagic(s: seq<Byte>)
    requires |s| >= 4
  {
    s[0] == 0xE9 && s[1] == 0xBC && s[2] == 0x9C && s[3] == 0xAD
  }

  function Decode(s: seq<Byte>): Record
    requires |s| == RECORD_SIZE
  {
    Record(FromLe16(s[4..6]), FromLe16(s[6..8]), FromLe32(s[8..12]))
  }

  function EncodeAll(rs: seq<Record>): (s: seq<Byte>)
    ensures |s| == RECORD_SIZE * |rs|
  {
    if rs == [] then [] else Encode(rs[0]) + EncodeAll(rs[1..])
  }

  lemma Le32RoundTrip(v: UInt32)
    ensures FromLe32(Le32(v)) == v
  {
    var q1 := v / 0x100;
    var q2 := q1 / 0x100;
    var q3 := q2 / 0x100;
    assert v / 0x1_0000 == q2 && v / 0x100_0000 == q3;
    assert v == q1 * 0x100 + v % 0x100;
    assert q1 == q2 * 0x100 + q1 % 0x100;
    assert q2 == q3 * 0x100 + q2 % 0x100;
  }

  lemma Le32Inverse(s: seq<Byte>)
    requires |s| == 4
    ensures Le32(FromLe32(s)) == s
  {
    var a: int, b: int, c: int, d: int := s[0], s[1], s[2], s[3];
    var v := FromLe32(s);
    assert v / 0x100 == b + 0x100 * (c + 0x100 * d);
    assert v / 0x1_0000 == c + 0x100 * d;
    assert v / 0x100_0000 == d;
  }

  lemma MagicWord(s: seq<Byte>)
    requires |s| >= 4
    ensures HasMagic(s) <==> FromLe32(s[..4]) == MAGIC
  {
    Le32Inverse(s[..4]);
    assert Le32(MAGIC) == MAGIC_BYTES;
    assert HasMagic(s) <==> s[..4] == MAGIC_BYTES;
  }

  lemma DecodeEncode(r: Record, rest: seq<Byte>)
    ensures HasMagic(Encode(r) + rest)
    ensures Decode((Encode(r) + rest)[..RECORD_SIZE]) == r
    ensures (Encode(r) + rest)[RECORD_SIZE..] == rest
  {
    var s := Encode(r) + rest;
    assert s[..RECORD_SIZE] == Encode(r);
    assert Encode(r)[4..6] == Le16(r.itype);
    assert Encode(r)[6..8] == Le16(r.icode);
    var head := MAGIC_BYTES + Le16(r.itype) + Le16(r.icode);
    assert Encode(r) == head + Le32(r.ivalue) && |head| == 8;
    assert Encode(r)[8..] == Le32(r.ivalue);
    assert Encode(r)[8..12] == Encode(r)[8..];
    Le32RoundTrip(r.ivalue);
  }

  lemma EncodeDecode(s: seq<Byte>)
    requires |s| == RECORD_SIZE && HasMagic(s)
    ensures Encode(Decode(s)) == s
  {
    Le32Inverse(s[8..12]);
    assert Le16(FromLe16(s[4..6])) == s[4..6];
    assert Le16(FromLe16(s[6..8])) == s[6..8];
    assert s == s[..4] + s[4..6] + s[6..8] + s[8..12];
  }

  lemma {:induction false} EncodeAllAppend(a: seq<Record>, b: seq<Record>)
    ensures EncodeAll(a + b) == EncodeAll(a) + EncodeAll(b)
  {
    if a == [] {
      assert a + b == b;
    } else {
      assert (a + b)[1..] == a[1..] + b;
      EncodeAllAppend(a[1..], b);
    }
  }

  lemma EncodeAllOne(r: Record)
    ensures EncodeAll([r]) == Encode(r)
  {
    assert [r][1..] == [];
  }

  /** The four magic bytes are pairwise distinct, so the word has no proper
      border: two occurrences never overlap. */
  lemma MagicHasNoBorder(s: seq<Byte>, k: nat)
    requires 0 < k < 4 && |s| >= 8
    requires HasMagic(s[k..])
    ensures !HasMagic(s)
  {
    assert s[k] == s[k..][0] == 0xE9;
  }
}

/**
  The two name hashes of the tool suite, both built on zlib's CRC-32 (the
  reflected polynomial 0xEDB88320, register preset to all ones, result
  complemented) over the UTF-8 encoding of a name:

  - `jamcrc`, the type hash of archive entries: the CRC without its final
    complement, cut to 31 bits;
  - the material-name hash the model importer stores on every mesh:
    0xFFFFFFFF minus the CRC.
*/
module Crc {
  import opened Binary

  // ---------------------------------------------------------------------------
  // UTF-8, as `str.encode()` produces it

  /** The UTF-8 bytes of one Unicode scalar value. */
  function Utf8Char(c: char): (b: seq<uint8>)
    ensures 1 <= |b| <= 4
    ensures c as int < 0x80 <==> |b| == 1
    ensures c as int < 0x80 ==> b == [c as int as uint8]
  {
    var v := c as int;
    if v < 0x80 then [v]
    else if v < 0x800 then [0xC0 + v / 0x40, 0x80 + v % 0x40]
    else if v < 0x1_0000 then [0xE0 + v / 0x1000, 0x80 + (v / 0x40) % 0x40, 0x80 + v % 0x40]
    else [0xF0 + v / 0x4_0000, 0x80 + (v / 0x1000) % 0x40, 0x80 + (v / 0x40) % 0x40, 0x80 + v % 0x40]
  }

  function Utf8(s: string): (b: seq<uint8>)
    ensures |b| >= |s|
  {
    if s == [] then [] else Utf8Char(s[0]) + Utf8(s[1..])
  }

  predicate IsAscii(s: string)
  {
    forall i :: 0 <= i < |s| ==> s[i] as int < 0x80
  }

  /** An ASCII name encodes to one byte per character, the character's code. */
  lemma {:induction false} Utf8Ascii(s: string)
    requires IsAscii(s)
    ensures var b := Utf8(s);
      |b| == |s| && forall i :: 0 <= i < |s| ==> b[i] == s[i] as int
  {
    if s != [] {
      Utf8Ascii(s[1..]);
      var b := Utf8(s);
      assert b == [s[0] as int as uint8] + Utf8(s[1..]);
      forall i | 0 < i < |s|
        ensures b[i] == s[i] as int
      {
        assert b[i] == Utf8(s[1..])[i - 1];
      }
    }
  }

  /** Encoding distributes over concatenation. */
  lemma {:induction false} Utf8Append(s: string, t: string)
    ensures Utf8(s + t) == Utf8(s) + Utf8(t)
  {
    if s == [] {
      assert s + t == t;
    } else {
      assert (s + t)[1..] == s[1..] + t;
      Utf8Append(s[1..], t);
    }
  }

  // ---------------------------------------------------------------------------
  // CRC-32

  const Poly: bv32 := 0xEDB8_8320

  /** One shift of the reflected CRC register. */
  function Shift(c: bv32): bv32
  {
    if c & 1 == 1 then (c >> 1) ^ Poly else c >> 1
  }

  /** One byte into the register: combine it with the low bits, then eight shifts. */
  function UpdateByte(c: bv32, b: uint8): bv32
  {
    var x := c ^ (b as bv32);
    Shift(Shift(Shift(Shift(Shift(Shift(Shift(Shift(x))))))))
  }

  /** The register after feeding `bytes` in order. */
  function Update(c: bv32, bytes: seq<uint8>): bv32
    decreases bytes
  {
    if bytes == [] then c else Update(UpdateByte(c, bytes[0]), bytes[1..])
  }

  /** Feeding two pieces one after the other is feeding their concatenation. */
  lemma {:induction false} UpdateAppend(c: bv32, a: seq<uint8>, b: seq<uint8>)
    ensures Update(c, a + b) == Update(Update(c, a), b)
    decreases a
  {
    if a == [] {
      assert a + b == b;
    } else {
      assert (a + b)[0] == a[0];
      assert (a + b)[1..] == a[1..] + b;
      UpdateAppend(UpdateByte(c, a[0]), a[1..], b);
    }
  }

  /** `zlib.crc32(bytes)` with the default start value, as a 32-bit word. */
  function Crc32(bytes: seq<uint8>): bv32
  {
    Update(0xFFFF_FFFF, bytes) ^ 0xFFFF_FFFF
  }

  /** A byte fed through the register, given the register after each of the eight shifts. */
  lemma UpdateByteBy(c: bv32, b: uint8, s: seq<bv32>)
    requires |s| == 9 && s[0] == c ^ (b as bv32)
    requires forall i :: 0 <= i < 8 ==> Shift(s[i]) == s[i + 1]
    ensures UpdateByte(c, b) == s[8]
  {
    assert Shift(s[0]) == s[1];
    assert Shift(s[1]) == s[2];
    assert Shift(s[2]) == s[3];
    assert Shift(s[3]) == s[4];
    assert Shift(s[4]) == s[5];
    assert Shift(s[5]) == s[6];
    assert Shift(s[6]) == s[7];
    assert Shift(s[7]) == s[8];
  }

  /**
    The known CRC-32 of "a", which pins the polynomial, the preset, the bit
    order and the final complement, and the type hash it gives.
  */
  lemma Crc32CheckValue()
    ensures Crc32(Utf8("a")) == 0xE8B7_BE43
    ensures JamCrc("a") == 0x1748_41BC
  {
    assert Utf8("a") == [0x61];
    UpdateByteBy(0xFFFF_FFFF, 0x61,
      [0xFFFF_FF9E, 0x7FFF_FFCF, 0xD247_7CC7, 0x849B_3D43, 0xAFF5_1D81, 0xBA42_0DE0, 0x5D21_06F0, 0x2E90_8378, 0x1748_41BC]);
  }

  /** `jamcrc(name)`, the archive's type hash: the CRC complemented back, top bit cleared. */
  function JamCrc(name: string): (h: bv32)
    ensures h <= 0x7FFF_FFFF
  {
    (Crc32(Utf8(name)) ^ 0xFFFF_FFFF) & 0x7FFF_FFFF
  }

  /**
    The `material_name_hash` the model importer attaches to a mesh. The source
    subtracts on unbounded integers; the CRC never exceeds 0xFFFFFFFF, so the
    32-bit subtraction here never wraps and gives the same number.
  */
  function MaterialNameHash(name: string): bv32
  {
    0xFFFF_FFFF - Crc32(Utf8(name))
  }

  /** The material-name hash is the raw CRC register, before the final complement. */
  lemma MaterialNameHashIsRegister(name: string)
    ensures MaterialNameHash(name) == Update(0xFFFF_FFFF, Utf8(name))
  {
    Complement(Update(0xFFFF_FFFF, Utf8(name)));
  }

  /**
    The type hash of a name is its material-name hash with the top bit
    cleared: both come from the same CRC register.
  */
  lemma JamCrcIsMaterialHashLowBits(name: string)
    ensures JamCrc(name) == MaterialNameHash(name) & 0x7FFF_FFFF
  {
    ComplementLowBits(Crc32(Utf8(name)));
  }

  lemma ComplementLowBits(c: bv32)
    ensures (c ^ 0xFFFF_FFFF) & 0x7FFF_FFFF == (0xFFFF_FFFF - c) & 0x7FFF_FFFF
  {
    assert c ^ 0xFFFF_FFFF == 0xFFFF_FFFF - c;
  }

  lemma Complement(reg: bv32)
    ensures 0xFFFF_FFFF - (reg ^ 0xFFFF_FFFF) == reg
    ensures (reg ^ 0xFFFF_FFFF) ^ 0xFFFF_FFFF == reg
  {
  }
}

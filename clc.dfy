/**
  The tint file (`.clc`): a magic word, then a word and three bytes that the
  reader skips, then the red, green and blue bytes of a colour. The colour
  is returned with each channel divided by 255.
*/
module Clc {
  import opened Binary
  import opened Cursor

  const ClcMagic: nat := 4410435     // "CLC\0" read as a little-endian u32
  const ClcSize: nat := 14           // the magic, a word, three skipped bytes and three channels

  /** A colour with channels in [0, 1]; Python's float division is taken as exact. */
  datatype Tint = Tint(red: real, green: real, blue: real)

  function Channel(b: nat): real
  {
    b as real / 255.0
  }

  /** `read`: the magic is checked first; the colour is bytes 11, 12 and 13. */
  function ParseClc(data: seq<uint8>): Result<Tint>
  {
    var magic :- UIntAt(data, 0, 4);
    if magic != ClcMagic then Err(BadMagic(magic))
    else if |data| < ClcSize then Err(Underrun)
    else Ok(Tint(Channel(data[11]), Channel(data[12]), Channel(data[13])))
  }

  /**
    A file is accepted exactly when it has the magic and at least 14 bytes; a
    readable wrong magic is reported with its value, and every other failure
    is a short read.
  */
  lemma ClcAccepted(data: seq<uint8>)
    ensures ParseClc(data).Ok? <==> |data| >= ClcSize && LeUInt(data[0..4]) == ClcMagic
    ensures |data| >= 4 && LeUInt(data[0..4]) != ClcMagic ==>
      ParseClc(data) == Err(BadMagic(LeUInt(data[0..4])))
    ensures ParseClc(data).Err? && !ParseClc(data).error.BadMagic? ==> ParseClc(data).error == Underrun
  {
    BytesFrom(data, 0, 4);
  }

  /** Each channel lies in [0, 1], and times 255 it gives back its byte. */
  lemma ClcChannels(data: seq<uint8>)
    requires ParseClc(data).Ok?
    ensures var t := ParseClc(data).value;
      0.0 <= t.red <= 1.0 && 0.0 <= t.green <= 1.0 && 0.0 <= t.blue <= 1.0 &&
      t.red * 255.0 == data[11] as real && t.green * 255.0 == data[12] as real &&
      t.blue * 255.0 == data[13] as real
  {
  }

  /** Only the magic and bytes 11 to 13 matter: the word at 4 and bytes 8 to 10 are ignored. */
  lemma ClcIgnoresSkipped(a: seq<uint8>, b: seq<uint8>)
    requires |a| >= ClcSize && |b| >= ClcSize
    requires a[0..4] == b[0..4] && a[11..14] == b[11..14]
    ensures ParseClc(a) == ParseClc(b)
  {
    BytesFrom(a, 0, 4);
    BytesFrom(b, 0, 4);
    assert a[11] == a[11..14][0] && a[12] == a[11..14][1] && a[13] == a[11..14][2];
    assert b[11] == b[11..14][0] && b[12] == b[11..14][1] && b[13] == b[11..14][2];
  }

  class ClcParser {
    const bs: Reader
    var magic: nat

    constructor (data: seq<uint8>)
      ensures bs.data == data && bs.offset == 0 && fresh(bs)
    {
      bs := new Reader(data);
      magic := 0;
    }

    /** `read`: magic, a skipped word, three skipped bytes, then red, green and blue. */
    method Read() returns (r: Result<Tint>)
      requires bs.offset == 0
      modifies this, bs
      ensures r == ParseClc(bs.data)
      ensures r.Ok? ==> magic == ClcMagic && bs.offset == ClcSize
    {
      var m := bs.ReadUInt();
      if m.Err? {
        return Err(m.error);
      }
      magic := m.value;
      if magic != ClcMagic {
        return Err(BadMagic(magic));
      }
      var skipped := ReadRecordField(bs, 4, 0, ClcSize, 4);
      if skipped.Err? { return Err(skipped.error); }
      var skip1 := ReadRecordField(bs, 1, 0, ClcSize, 8);
      if skip1.Err? { return Err(skip1.error); }
      var skip2 := ReadRecordField(bs, 1, 0, ClcSize, 9);
      if skip2.Err? { return Err(skip2.error); }
      var skip3 := ReadRecordField(bs, 1, 0, ClcSize, 10);
      if skip3.Err? { return Err(skip3.error); }
      var red := ReadRecordField(bs, 1, 0, ClcSize, 11);
      if red.Err? { return Err(red.error); }
      var green := ReadRecordField(bs, 1, 0, ClcSize, 12);
      if green.Err? { return Err(green.error); }
      var blue := ReadRecordField(bs, 1, 0, ClcSize, 13);
      if blue.Err? { return Err(blue.error); }
      ghost var rec := bs.data[0..ClcSize];
      assert rec[11..12] == [bs.data[11]] && rec[12..13] == [bs.data[12]] && rec[13..14] == [bs.data[13]];
      r := Ok(Tint(Channel(red.value), Channel(green.value), Channel(blue.value)));
    }
  }
}

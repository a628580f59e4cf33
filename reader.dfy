/**
  The byte cursor `Reader` that every parser file carries a copy of: an
  immutable buffer and one integer offset that typed reads advance by their
  width and seeks overwrite.
*/
module Cursor {
  import opened Binary

  /** A UTF-16 code unit as `chr` turns it into a one-unit Python string. */
  type CodeUnit = x: int | 0 <= x < 0x1_0000

  /** What a zero-terminated scan produced, and where it left the cursor. */
  datatype Scan<C> = Scan(text: Result<seq<C>>, next: int)

  function PrependScan<C>(t: seq<C>, s: Scan<C>): Scan<C>
  {
    Scan(if s.text.Ok? then Ok(t + s.text.value) else s.text, s.next)
  }

  lemma PrependNothing<C>(s: Scan<C>)
    ensures PrependScan([], s) == s
  {
    if s.text.Ok? {
      assert [] + s.text.value == s.text.value;
    }
  }

  lemma PrependTwice<C>(t: seq<C>, u: seq<C>, s: Scan<C>)
    ensures PrependScan(t, PrependScan(u, s)) == PrependScan(t + u, s)
  {
    if s.text.Ok? {
      assert t + (u + s.text.value) == (t + u) + s.text.value;
    }
  }

  /**
    `readString`: bytes up to the first zero, each byte one character. On a
    failed byte read the cursor stays where that read was attempted.
  */
  function CStringScan(data: seq<uint8>, off: int): Scan<char>
    decreases |data| - off
  {
    match UIntAt(data, off, 1)
    case Err(e) => Scan(Err(e), off)
    case Ok(b) =>
      BytesBelowEnd(data, off, 1);
      if b == 0 then Scan(Ok([]), off + 1)
      else PrependScan([b as char], CStringScan(data, off + 1))
  }

  /** `readStringUTF`: 16-bit units up to the first zero unit. */
  function WideScan(data: seq<uint8>, off: int): Scan<CodeUnit>
    decreases |data| - off
  {
    match UIntAt(data, off, 2)
    case Err(e) => Scan(Err(e), off)
    case Ok(u) =>
      BytesBelowEnd(data, off, 2);
      if u == 0 then Scan(Ok([]), off + 2)
      else PrependScan([u as CodeUnit], WideScan(data, off + 2))
  }

  function CStringAt(data: seq<uint8>, off: int): Result<string>
  {
    CStringScan(data, off).text
  }

  /** The first zero byte at or after `off`, if there is one. */
  predicate TerminatedAt(data: seq<uint8>, off: nat, len: nat)
  {
    off + len < |data| && data[off + len] == 0 &&
    forall k :: off <= k < off + len ==> data[k] != 0
  }

  /**
    From a non-negative offset, `readString` succeeds exactly when a zero byte
    follows; it then returns the bytes before that zero as characters and
    leaves the cursor just past the zero.
  */
  lemma {:induction false} CStringScanSpec(data: seq<uint8>, off: nat)
    ensures var s := CStringScan(data, off);
      (s.text.Ok? <==> exists k :: off <= k < |data| && data[k] == 0) &&
      (s.text.Ok? ==>
        TerminatedAt(data, off, |s.text.value|) &&
        s.next == off + |s.text.value| + 1 &&
        forall k :: 0 <= k < |s.text.value| ==> s.text.value[k] == data[off + k] as char)
    decreases |data| - off
  {
    BytesFrom(data, off, 1);
    if off < |data| {
      assert UIntAt(data, off, 1) == Ok(data[off]) by {
        assert data[off..off + 1] == [data[off]];
      }
      if data[off] != 0 {
        CStringScanSpec(data, off + 1);
        var s := CStringScan(data, off + 1);
        if s.text.Ok? {
          var t := [data[off] as char] + s.text.value;
          assert forall k :: 0 < k < |t| ==> t[k] == s.text.value[k - 1];
        }
        assert (exists k :: off <= k < |data| && data[k] == 0) ==>
               (exists k :: off + 1 <= k < |data| && data[k] == 0);
      }
    }
  }

  /** `name` is the text at `off`: one character per byte, up to the first zero. */
  predicate StringAt(data: seq<uint8>, off: nat, name: string)
  {
    TerminatedAt(data, off, |name|) &&
    forall k :: 0 <= k < |name| ==> name[k] == data[off + k] as char
  }

  /** A string is read exactly when a zero byte follows `off`, and it is the text there. */
  lemma CStringAtSpec(data: seq<uint8>, off: nat)
    ensures CStringAt(data, off).Ok? <==> exists k :: off <= k < |data| && data[k] == 0
    ensures CStringAt(data, off).Ok? ==> StringAt(data, off, CStringAt(data, off).value)
  {
    CStringScanSpec(data, off);
  }

  /**
    Python's `int(a / b)`, taking the quotient exactly and truncating it
    toward zero. Python computes it as a double, which can round
    differently once the operands are near 2^53.
  */
  function TruncDiv(a: int, b: int): int
    requires b != 0
  {
    var q := (if a < 0 then -a else a) / (if b < 0 then -b else b);
    if (a < 0) == (b < 0) then q else -q
  }

  /** The offset `allign(size)` moves to. */
  function AlignedOffset(off: int, size: int): int
    requires size != 0
  {
    TruncDiv(off, size) * size + size
  }

  /**
    For a non-negative cursor and a positive size, `allign` moves to the next
    multiple of `size` strictly after the cursor.
  */
  lemma AlignedOffsetNext(off: int, size: int)
    requires off >= 0 && size > 0
    ensures var r := AlignedOffset(off, size);
      r == (off / size + 1) * size && off < r <= off + size
  {
    var q := off / size;
    assert TruncDiv(off, size) == q;
    assert off == q * size + off % size;
    assert AlignedOffset(off, size) == (q + 1) * size;
  }

  /**
    The unsigned field at `k` of the `size`-byte record at `base`, read at the
    cursor: while the record lies inside the buffer the read gives the
    record's field, and a failed read means the record sticks out.
  */
  method ReadRecordField(bs: Reader, w: nat, ghost base: nat, ghost size: nat, ghost k: nat)
    returns (r: Result<nat>)
    requires 0 < w && k + w <= size && bs.offset == base + k
    modifies bs
    ensures r.Err? ==> r.error == Underrun && |bs.data| < base + size
    ensures base + size <= |bs.data| ==> r == Ok(Field(bs.data[base..base + size], k, w))
    ensures r.Ok? ==> bs.offset == base + k + w && base + k + w <= |bs.data|
  {
    FieldOfRecord(bs.data, base, size, k, w);
    BytesFrom(bs.data, base, size);
    BytesFrom(bs.data, base + k, w);
    r := bs.ReadUnsigned(w);
  }

  /** The 32-bit float at `k` of the `size`-byte record at `base`, read at the cursor. */
  method ReadRecordSingle(bs: Reader, ghost base: nat, ghost size: nat, ghost k: nat)
    returns (r: Result<Single>)
    requires k + 4 <= size && bs.offset == base + k
    modifies bs
    ensures r.Err? ==> r.error == Underrun && |bs.data| < base + size
    ensures base + size <= |bs.data| ==> r == Ok(Single(Field(bs.data[base..base + size], k, 4)))
    ensures r.Ok? ==> bs.offset == base + k + 4 && base + k + 4 <= |bs.data|
  {
    FieldOfRecord(bs.data, base, size, k, 4);
    BytesFrom(bs.data, base, size);
    BytesFrom(bs.data, base + k, 4);
    r := bs.ReadFloat();
  }

  class Reader {
    const data: seq<uint8>
    var offset: int

    constructor (data: seq<uint8>)
      ensures this.data == data && offset == 0
    {
      this.data := data;
      offset := 0;
    }

    function Tell(): int
      reads this
    {
      offset
    }

    function GetSize(): nat
    {
      |data|
    }

    /** `seek(o)`: absolute. */
    method Seek(o: int)
      modifies this
      ensures offset == o
    {
      offset := o;
    }

    /** `seek(o, start)` with any `start`: relative. */
    method SeekRelative(o: int)
      modifies this
      ensures offset == old(offset) + o
    {
      offset := offset + o;
    }

    /** `read(kind, size)`: unpack `size` bytes at the cursor, then advance by `size`. */
    method Read(size: nat) returns (r: Result<seq<uint8>>)
      modifies this
      ensures r == Bytes(data, old(offset), size)
      ensures offset == if r.Ok? then old(offset) + size else old(offset)
    {
      r := Bytes(data, offset, size);
      if r.Ok? {
        offset := offset + size;
      }
    }

    method ReadUnsigned(size: nat) returns (r: Result<nat>)
      modifies this
      ensures r == UIntAt(data, old(offset), size)
      ensures offset == if r.Ok? then old(offset) + size else old(offset)
    {
      var b :- Read(size);
      r := Ok(LeUInt(b));
    }

    method ReadSigned(size: nat) returns (r: Result<int>)
      modifies this
      ensures r == SIntAt(data, old(offset), size)
      ensures offset == if r.Ok? then old(offset) + size else old(offset)
    {
      var v :- ReadUnsigned(size);
      r := Ok(Signed(v, size));
    }

    method ReadUByte() returns (r: Result<nat>)
      modifies this
      ensures r == UIntAt(data, old(offset), 1)
      ensures offset == if r.Ok? then old(offset) + 1 else old(offset)
    {
      r := ReadUnsigned(1);
    }

    method ReadByte() returns (r: Result<int>)
      modifies this
      ensures r == SIntAt(data, old(offset), 1)
      ensures offset == if r.Ok? then old(offset) + 1 else old(offset)
    {
      r := ReadSigned(1);
    }

    method ReadUShort() returns (r: Result<nat>)
      modifies this
      ensures r == UIntAt(data, old(offset), 2)
      ensures offset == if r.Ok? then old(offset) + 2 else old(offset)
    {
      r := ReadUnsigned(2);
    }

    method ReadShort() returns (r: Result<int>)
      modifies this
      ensures r == SIntAt(data, old(offset), 2)
      ensures offset == if r.Ok? then old(offset) + 2 else old(offset)
    {
      r := ReadSigned(2);
    }

    method ReadUInt() returns (r: Result<nat>)
      modifies this
      ensures r == UIntAt(data, old(offset), 4)
      ensures offset == if r.Ok? then old(offset) + 4 else old(offset)
    {
      r := ReadUnsigned(4);
    }

    method ReadInt() returns (r: Result<int>)
      modifies this
      ensures r == SIntAt(data, old(offset), 4)
      ensures offset == if r.Ok? then old(offset) + 4 else old(offset)
    {
      r := ReadSigned(4);
    }

    method ReadUInt64() returns (r: Result<nat>)
      modifies this
      ensures r == UIntAt(data, old(offset), 8)
      ensures offset == if r.Ok? then old(offset) + 8 else old(offset)
    {
      r := ReadUnsigned(8);
    }

    method ReadHalf() returns (r: Result<Half>)
      modifies this
      ensures r == HalfAt(data, old(offset))
      ensures offset == if r.Ok? then old(offset) + 2 else old(offset)
    {
      var v :- ReadUnsigned(2);
      r := Ok(Half(v));
    }

    method ReadFloat() returns (r: Result<Single>)
      modifies this
      ensures r == SingleAt(data, old(offset))
      ensures offset == if r.Ok? then old(offset) + 4 else old(offset)
    {
      var v :- ReadUnsigned(4);
      r := Ok(Single(v));
    }

    /** `readBytes(size)`: the Python slice at the cursor; never fails, never moves. */
    method ReadBytes(size: int) returns (b: seq<uint8>)
      ensures b == PySlice(data, offset, offset + size)
    {
      b := PySlice(data, offset, offset + size);
    }

    method ReadString() returns (r: Result<string>)
      modifies this
      ensures Scan(r, offset) == CStringScan(data, old(offset))
    {
      var text := "";
      PrependNothing(CStringScan(data, offset));
      while true
        invariant CStringScan(data, old(offset)) == PrependScan(text, CStringScan(data, offset))
        decreases |data| - offset
      {
        ghost var at := offset;
        var c :- ReadUByte();
        BytesBelowEnd(data, at, 1);
        if c == 0 {
          assert text + [] == text;
          break;
        }
        PrependTwice(text, [c as char], CStringScan(data, offset));
        text := text + [c as char];
      }
      r := Ok(text);
    }

    method ReadStringUTF() returns (r: Result<seq<CodeUnit>>)
      modifies this
      ensures Scan(r, offset) == WideScan(data, old(offset))
    {
      var text: seq<CodeUnit> := [];
      PrependNothing(WideScan(data, offset));
      while true
        invariant WideScan(data, old(offset)) == PrependScan(text, WideScan(data, offset))
        decreases |data| - offset
      {
        ghost var at := offset;
        var u :- ReadUShort();
        BytesBelowEnd(data, at, 2);
        if u == 0 {
          assert text + [] == text;
          break;
        }
        PrependTwice(text, [u as CodeUnit], WideScan(data, offset));
        text := text + [u as CodeUnit];
      }
      r := Ok(text);
    }

    /**
      `readStringUTFAt(at)`: a wide string read elsewhere; the cursor comes back
      to where it was, unless a read fails, which leaves it at the failing read.
    */
    method ReadStringUTFAt(at: int) returns (r: Result<seq<CodeUnit>>)
      modifies this
      ensures r == WideScan(data, at).text
      ensures offset == if r.Ok? then old(offset) else WideScan(data, at).next
    {
      var previous := Tell();
      Seek(at);
      r := ReadStringUTF();
      if r.Ok? {
        Seek(previous);
      }
    }

    /** `allign(size)`; a zero size raises `ZeroDivisionError` and leaves the cursor. */
    method Allign(size: int) returns (r: Result<()>)
      modifies this
      ensures r.Err? <==> size == 0
      ensures r.Err? ==> r.error == ZeroDivision && offset == old(offset)
      ensures r.Ok? ==> offset == AlignedOffset(old(offset), size)
    {
      if size == 0 {
        return Err(ZeroDivision);
      }
      offset := AlignedOffset(offset, size);
      r := Ok(());
    }
  }
}

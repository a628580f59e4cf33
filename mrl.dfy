/**
  The material library (`.mrl`) as a function of its bytes: a 40-byte
  header, a table of texture paths walked with a stride chosen by a
  discriminator, 72-byte material records and, for each material, 24-byte
  resource bindings that give its textures and properties their names.

  Binding names come from a dictionary keyed by Python's `hex()` of the
  binding hash; the dictionary is a parameter. `MrlParser` (in
  mrl_parser.dfy) reads the same structures with the cursor and is proved to
  compute these functions.
*/
module MrlFile {
  import opened Binary
  import opened Cursor

  const MrlMagic: nat := 5001805       // "MRL\0" read as a little-endian u32
  const MrlHeaderSize: nat := 40
  const PathTag: nat := 0x241f5deb      // the one discriminator whose slot holds a path
  const PathOffset: nat := 24           // the path follows the discriminator, a u32 and two u64
  const UnlistedSlot: nat := 94         // the slot size of a discriminator the table does not list
  const MatRecordSize: nat := 72
  const BindingSize: nat := 24
  const TextureKind: nat := 3
  const PropertyKind: nat := 0

  /** The discriminators of the texture table with the size of their slot. */
  const SlotSizes: map<nat, nat> := map[
    0x00000000 := 58,
    0x451e3333 := 94,
    0x59993333 := 152,
    0xc53e7fff := 94,
    0xcccc9999 := 94,
    0x241f5deb := 24 + 128,
    0x60850864 := 94,
    0xe6cfbabe := 94]

  // ---------------------------------------------------------------------------
  // Header

  datatype MrlHeader = MrlHeader(version: nat, matCount: nat, texCount: nat, texOffset: nat, matOffset: nat)

  function MrlHeaderOf(rec: seq<uint8>): MrlHeader
    requires |rec| == MrlHeaderSize
  {
    MrlHeader(Field(rec, 4, 4), Field(rec, 8, 4), Field(rec, 12, 4), Field(rec, 24, 8), Field(rec, 32, 8))
  }

  /** The magic is checked first; the rest of the header is read after it. */
  function ParseMrlHeader(data: seq<uint8>): Result<MrlHeader>
  {
    var magic :- UIntAt(data, 0, 4);
    if magic != MrlMagic then Err(BadMagic(magic))
    else if |data| < MrlHeaderSize then Err(Underrun)
    else Ok(MrlHeaderOf(data[..MrlHeaderSize]))
  }

  /**
    A file is accepted exactly when it holds a whole header that starts with
    the magic; a readable wrong magic is reported with its value, and every
    other failure is a short read.
  */
  lemma MrlHeaderAccepted(data: seq<uint8>)
    ensures ParseMrlHeader(data).Ok? <==> |data| >= MrlHeaderSize && LeUInt(data[0..4]) == MrlMagic
    ensures |data| >= 4 && LeUInt(data[0..4]) != MrlMagic ==>
      ParseMrlHeader(data) == Err(BadMagic(LeUInt(data[0..4])))
    ensures ParseMrlHeader(data).Err? && !ParseMrlHeader(data).error.BadMagic? ==>
      ParseMrlHeader(data).error == Underrun
  {
    BytesFrom(data, 0, 4);
  }

  // ---------------------------------------------------------------------------
  // Texture paths

  /** The size of the slot a discriminator introduces. */
  function SlotSize(tag: nat): (n: nat)
    ensures n >= 58
    ensures tag == PathTag ==> n == 152
    ensures tag == 0 ==> n == 58
    ensures tag !in SlotSizes ==> n == UnlistedSlot
  {
    if tag in SlotSizes then SlotSizes[tag] else UnlistedSlot
  }

  /**
    One slot of the walk: the entry it appends (none for a zero
    discriminator; a path or `None` otherwise) and where the next slot starts.
  */
  datatype Slot = Slot(entry: Option<Option<string>>, next: nat)

  function SlotAt(data: seq<uint8>, origin: nat): (r: Result<Slot>)
    ensures r.Ok? ==> origin + 4 <= |data| && r.value.next >= origin + 58
  {
    var tag :- UIntAt(data, origin, 4);
    BytesFrom(data, origin, 4);
    if tag == PathTag then
      if |data| < origin + PathOffset then Err(Underrun)
      else
        var path :- CStringAt(data, origin + PathOffset);
        Ok(Slot(Some(Some(path)), origin + SlotSize(tag)))
    else if tag == 0 then Ok(Slot(None, origin + SlotSize(tag)))
    else Ok(Slot(Some(None), origin + SlotSize(tag)))
  }

  /** The `left` entries of the walk from `at`; slots with a zero discriminator add none. */
  function TexWalk(data: seq<uint8>, at: nat, left: nat): (r: Result<seq<Option<string>>>)
    ensures r.Ok? ==> |r.value| == left
    decreases left, |data| - at
  {
    if left == 0 then Ok([])
    else
      var slot :- SlotAt(data, at);
      if slot.entry.None? then TexWalk(data, slot.next, left)
      else
        var rest :- TexWalk(data, slot.next, left - 1);
        Ok([slot.entry.value] + rest)
  }

  /** `p` followed by the entries of a walk that succeeds; a failed walk stays failed. */
  function PrependPaths(p: seq<Option<string>>, r: Result<seq<Option<string>>>): Result<seq<Option<string>>>
  {
    if r.Ok? then Ok(p + r.value) else r
  }

  lemma PrependPathsTwice(p: seq<Option<string>>, q: seq<Option<string>>, r: Result<seq<Option<string>>>)
    ensures PrependPaths(p, PrependPaths(q, r)) == PrependPaths(p + q, r)
  {
    if r.Ok? {
      assert p + (q + r.value) == (p + q) + r.value;
    }
  }

  /** One slot of the walk: a failed slot fails the walk; otherwise its entry leads the rest. */
  lemma TexWalkStep(data: seq<uint8>, at: nat, left: nat)
    requires left > 0
    ensures SlotAt(data, at).Err? ==> TexWalk(data, at, left) == Err(SlotAt(data, at).error)
    ensures SlotAt(data, at).Ok? && SlotAt(data, at).value.entry.None? ==>
      TexWalk(data, at, left) == TexWalk(data, SlotAt(data, at).value.next, left)
    ensures SlotAt(data, at).Ok? && SlotAt(data, at).value.entry.Some? ==>
      TexWalk(data, at, left) ==
        PrependPaths([SlotAt(data, at).value.entry.value], TexWalk(data, SlotAt(data, at).value.next, left - 1))
  {
  }

  /**
    Each slot lies at least 58 bytes after the previous one, so `n` entries
    need the first four bytes of a slot at least `58 * (n - 1)` bytes in.
  */
  lemma {:induction false} TexWalkNeedsRoom(data: seq<uint8>, at: nat, left: nat)
    requires left > 0 && TexWalk(data, at, left).Ok?
    ensures at + 58 * (left - 1) + 4 <= |data|
    decreases left, |data| - at
  {
    var slot := SlotAt(data, at).value;
    if slot.entry.None? {
      TexWalkNeedsRoom(data, slot.next, left);
    } else if left > 1 {
      TexWalkNeedsRoom(data, slot.next, left - 1);
    }
  }

  /** Only a slot with the path discriminator yields a path, and the path is the text 24 bytes in. */
  lemma SlotEntry(data: seq<uint8>, origin: nat)
    requires SlotAt(data, origin).Ok?
    ensures var slot := SlotAt(data, origin).value;
      var tag := LeUInt(data[origin..origin + 4]);
      (slot.entry.None? <==> tag == 0) &&
      (slot.entry == Some(None) <==> tag != 0 && tag != PathTag) &&
      (slot.next == origin + SlotSize(tag)) &&
      (slot.entry.Some? && slot.entry.value.Some? ==>
        tag == PathTag && StringAt(data, origin + PathOffset, slot.entry.value.value))
  {
    BytesFrom(data, origin, 4);
    if LeUInt(data[origin..origin + 4]) == PathTag {
      CStringAtSpec(data, origin + PathOffset);
    }
  }

  // ---------------------------------------------------------------------------
  // Material records

  datatype MatInfo = MatInfo(shaderHash: nat, matnameHash: nat, dataSize: nat, dataOffset: nat)

  function MatInfoOf(rec: seq<uint8>): (m: MatInfo)
    requires |rec| == MatRecordSize
    ensures m.dataSize < 256
  {
    MatInfo(Field(rec, 0, 4), Field(rec, 8, 4), Field(rec, 28, 1), Field(rec, 56, 8))
  }

  /** The material record at `at`; a record that sticks out of the file is a short read. */
  function MatInfoAt(data: seq<uint8>, at: nat): (r: Result<MatInfo>)
    ensures r.Ok? <==> at + MatRecordSize <= |data|
  {
    if |data| < at + MatRecordSize then Err(Underrun) else Ok(MatInfoOf(data[at..at + MatRecordSize]))
  }

  /** Record `i` of the run that starts at `base`. */
  function MatInfoFrom(data: seq<uint8>, base: nat): nat -> Result<MatInfo>
  {
    (i: nat) => MatInfoAt(data, base + MatRecordSize * i)
  }

  // ---------------------------------------------------------------------------
  // Resource bindings

  datatype Binding = Binding(kind: nat, id: nat, hash: nat)

  function BindingOf(rec: seq<uint8>): Binding
    requires |rec| == BindingSize
  {
    Binding(Field(rec, 0, 1), Field(rec, 8, 4), Field(rec, 16, 4))
  }

  function BindingAt(data: seq<uint8>, at: nat): (r: Result<Binding>)
    ensures r.Ok? <==> at + BindingSize <= |data|
  {
    if |data| < at + BindingSize then Err(Underrun) else Ok(BindingOf(data[at..at + BindingSize]))
  }

  /** A material: its hashes, its named textures (a path or `None`) and its named properties. */
  datatype Material = Material(
    shaderHash: nat, matnameHash: nat,
    textures: map<string, Option<string>>, properties: set<string>)

  /** The material before any binding is applied. */
  function Blank(info: MatInfo): Material
  {
    Material(info.shaderHash, info.matnameHash, map[], {})
  }

  /**
    A binding of texture kind whose hash the dictionary knows names texture
    `id - 1` of the table, Python indexing; one of property kind names a
    property; every other binding changes nothing.
  */
  function Bind(m: Material, b: Binding, paths: seq<Option<string>>, names: map<string, string>): Result<Material>
  {
    var key := Hex(b.hash);
    if b.kind % 16 == TextureKind && key in names then
      var path :- PyIndex(paths, b.id - 1);
      Ok(m.(textures := m.textures[names[key] := path]))
    else if b.kind % 16 == PropertyKind && key in names then
      Ok(m.(properties := m.properties + {names[key]}))
    else Ok(m)
  }

  /** The material after its first `j` bindings. */
  function BindAll(data: seq<uint8>, info: MatInfo, j: nat, paths: seq<Option<string>>,
                   names: map<string, string>): Result<Material>
  {
    if j == 0 then Ok(Blank(info))
    else
      var m :- BindAll(data, info, j - 1, paths, names);
      var b :- BindingAt(data, info.dataOffset + BindingSize * (j - 1));
      Bind(m, b, paths, names)
  }

  function MaterialOf(data: seq<uint8>, info: MatInfo, paths: seq<Option<string>>,
                      names: map<string, string>): Result<Material>
  {
    BindAll(data, info, info.dataSize, paths, names)
  }

  /** The materials of `infos` by name hash; a later record replaces an earlier one with its hash. */
  function Library(data: seq<uint8>, infos: seq<MatInfo>, paths: seq<Option<string>>,
                   names: map<string, string>): (r: Result<map<nat, Material>>)
    ensures r.Ok? ==> r.value.Keys == set i | 0 <= i < |infos| :: infos[i].matnameHash
  {
    if |infos| == 0 then Ok(map[])
    else
      var lib :- Library(data, infos[..|infos| - 1], paths, names);
      var last := infos[|infos| - 1];
      var m :- MaterialOf(data, last, paths, names);
      Ok(lib[last.matnameHash := m])
  }

  /** `read`: header, texture walk, every material record, then each material's bindings. */
  function ParseMrl(data: seq<uint8>, names: map<string, string>): Result<map<nat, Material>>
  {
    var h :- ParseMrlHeader(data);
    var paths :- TexWalk(data, h.texOffset, h.texCount);
    var infos :- Collect(h.matCount, MatInfoFrom(data, h.matOffset));
    Library(data, infos, paths, names)
  }

  // ---------------------------------------------------------------------------
  // Properties of the bindings and the library

  /**
    A binding fails only on a texture it names whose index is outside the
    table: id 0 is the last path, ids 1 to `|paths|` are the paths in order.
    A texture binding sets its slot, overwriting an earlier one of the same
    name; a property binding adds its name; the hashes never change.
  */
  lemma BindSpec(m: Material, b: Binding, paths: seq<Option<string>>, names: map<string, string>)
    ensures var r := Bind(m, b, paths, names);
      var key := Hex(b.hash);
      var texture := b.kind % 16 == TextureKind && key in names;
      (r.Err? <==> texture && (b.id > |paths| || (b.id == 0 && |paths| == 0))) &&
      (r.Err? ==> r.error == IndexOutOfRange) &&
      (r.Ok? ==> r.value.shaderHash == m.shaderHash && r.value.matnameHash == m.matnameHash) &&
      (r.Ok? && texture && b.id == 0 ==>
        r.value == m.(textures := m.textures[names[key] := paths[|paths| - 1]])) &&
      (r.Ok? && texture && b.id > 0 ==>
        r.value == m.(textures := m.textures[names[key] := paths[b.id - 1]])) &&
      (b.kind % 16 == PropertyKind && key in names ==>
        r == Ok(m.(properties := m.properties + {names[key]}))) &&
      (!texture && !(b.kind % 16 == PropertyKind && key in names) ==> r == Ok(m))
  {
  }

  /** Every slot name a material carries comes from the dictionary, and every texture from the table. */
  predicate Sound(m: Material, paths: seq<Option<string>>, names: map<string, string>)
  {
    (forall n :: n in m.textures ==> n in names.Values && m.textures[n] in paths) &&
    (forall n :: n in m.properties ==> n in names.Values)
  }

  /** Bindings whose hash the dictionary misses are dropped: nothing unnamed gets in. */
  lemma {:induction false} BindAllSound(data: seq<uint8>, info: MatInfo, j: nat,
                                        paths: seq<Option<string>>, names: map<string, string>)
    requires BindAll(data, info, j, paths, names).Ok?
    ensures var m := BindAll(data, info, j, paths, names).value;
      Sound(m, paths, names) && m.shaderHash == info.shaderHash && m.matnameHash == info.matnameHash
  {
    if j > 0 {
      BindAllSound(data, info, j - 1, paths, names);
      var m := BindAll(data, info, j - 1, paths, names).value;
      var b := BindingAt(data, info.dataOffset + BindingSize * (j - 1)).value;
      BindSpec(m, b, paths, names);
    }
  }

  /** One more binding: read it at its place and apply it. */
  lemma BindAllStep(data: seq<uint8>, info: MatInfo, j: nat, paths: seq<Option<string>>,
                    names: map<string, string>, m: Material)
    requires BindAll(data, info, j, paths, names) == Ok(m)
    ensures var b := BindingAt(data, info.dataOffset + BindingSize * j);
      BindAll(data, info, j + 1, paths, names) == if b.Err? then Err(b.error) else Bind(m, b.value, paths, names)
  {
  }

  /** A material whose first `j` bindings fail fails the same way. */
  lemma {:induction false} BindAllSticky(data: seq<uint8>, info: MatInfo, j: nat, n: nat,
                                         paths: seq<Option<string>>, names: map<string, string>)
    requires j <= n && BindAll(data, info, j, paths, names).Err?
    ensures BindAll(data, info, n, paths, names) == BindAll(data, info, j, paths, names)
    decreases n - j
  {
    if j < n {
      BindAllSticky(data, info, j, n - 1, paths, names);
    }
  }

  /** A library whose first `i` records fail fails the same way. */
  lemma {:induction false} LibrarySticky(data: seq<uint8>, infos: seq<MatInfo>, i: nat,
                                         paths: seq<Option<string>>, names: map<string, string>)
    requires i <= |infos| && Library(data, infos[..i], paths, names).Err?
    ensures Library(data, infos, paths, names) == Library(data, infos[..i], paths, names)
  {
    if i < |infos| {
      var front := infos[..|infos| - 1];
      assert front[..i] == infos[..i];
      LibrarySticky(data, front, i, paths, names);
    } else {
      assert infos[..i] == infos;
    }
  }

  /** The library is built exactly when every material's bindings are. */
  lemma {:induction false} LibraryOkIff(data: seq<uint8>, infos: seq<MatInfo>, paths: seq<Option<string>>,
                                        names: map<string, string>)
    ensures Library(data, infos, paths, names).Ok? <==>
      forall i :: 0 <= i < |infos| ==> MaterialOf(data, infos[i], paths, names).Ok?
  {
    if |infos| > 0 {
      var front := infos[..|infos| - 1];
      LibraryOkIff(data, front, paths, names);
      assert forall i :: 0 <= i < |front| ==> front[i] == infos[i];
    }
  }

  /** Each name hash maps to the material of the last record that carries it. */
  lemma {:induction false} LibraryLastWins(data: seq<uint8>, infos: seq<MatInfo>, paths: seq<Option<string>>,
                                           names: map<string, string>, i: nat)
    requires Library(data, infos, paths, names).Ok? && i < |infos|
    requires forall j :: i < j < |infos| ==> infos[j].matnameHash != infos[i].matnameHash
    ensures MaterialOf(data, infos[i], paths, names) == Ok(Library(data, infos, paths, names).value[infos[i].matnameHash])
  {
    var front := infos[..|infos| - 1];
    if i < |infos| - 1 {
      assert front[i] == infos[i];
      LibraryLastWins(data, front, paths, names, i);
    }
  }

  // ---------------------------------------------------------------------------
  // Python's hex()

  function HexDigit(d: nat): (c: char)
    requires d < 16
  {
    if d < 10 then ('0' as int + d) as char else ('a' as int + d - 10) as char
  }

  function DigitValue(c: char): nat
  {
    if '0' <= c <= '9' then c as int - '0' as int
    else if 'a' <= c <= 'f' then c as int - 'a' as int + 10
    else 0
  }

  function HexDigits(n: nat): (s: string)
    ensures |s| > 0
  {
    if n < 16 then [HexDigit(n)] else HexDigits(n / 16) + [HexDigit(n % 16)]
  }

  /** `hex(n)` for a non-negative `n`: "0x", then lower-case digits without leading zeros. */
  function Hex(n: nat): string
  {
    "0x" + HexDigits(n)
  }

  /** The digits read back as a number, most significant first. */
  function ParseHexDigits(s: string): nat
  {
    if |s| == 0 then 0 else 16 * ParseHexDigits(s[..|s| - 1]) + DigitValue(s[|s| - 1])
  }

  /** A digit reads back as its value; only the value zero gives the digit '0'. */
  lemma HexDigitBack(d: nat)
    requires d < 16
    ensures DigitValue(HexDigit(d)) == d
    ensures HexDigit(d) == '0' <==> d == 0
    ensures HexDigit(d) in "0123456789abcdef"
  {
    var digits := "0123456789abcdef";
    assert HexDigit(d) == digits[d];
  }

  /** Reading the digits back gives the number, and the first digit is zero only for zero. */
  lemma {:induction false} HexDigitsRoundTrip(n: nat)
    ensures ParseHexDigits(HexDigits(n)) == n
    ensures HexDigits(n)[0] == '0' <==> n == 0
    ensures forall k :: 0 <= k < |HexDigits(n)| ==> HexDigits(n)[k] in "0123456789abcdef"
  {
    var s := HexDigits(n);
    if n < 16 {
      HexDigitBack(n);
    } else {
      var front := HexDigits(n / 16);
      HexDigitsRoundTrip(n / 16);
      HexDigitBack(n % 16);
      assert s == front + [HexDigit(n % 16)];
      assert s[..|s| - 1] == front;
      assert ParseHexDigits(s) == 16 * (n / 16) + n % 16;
    }
  }

  /** Distinct hashes get distinct dictionary keys. */
  lemma HexInjective(a: nat, b: nat)
    ensures Hex(a) == Hex(b) <==> a == b
  {
    if Hex(a) == Hex(b) {
      assert HexDigits(a) == Hex(a)[2..];
      assert HexDigits(b) == Hex(b)[2..];
      HexDigitsRoundTrip(a);
      HexDigitsRoundTrip(b);
    }
  }
}

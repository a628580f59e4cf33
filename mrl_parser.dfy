/**
  `MrlParser`: the material library reader as the tool runs it, one cursor
  read at a time. Each reading method is proved to compute the matching
  function of `MrlFile`.
*/
module MrlReader {
  import opened Binary
  import opened Cursor
  import opened MrlFile

  // ---------------------------------------------------------------------------
  // Records read field by field

  /** The header after its magic: version, counts, two unused words and the two table offsets. */
  method ReadMrlHeaderFields(bs: Reader) returns (r: Result<MrlHeader>)
    requires bs.offset == 4
    modifies bs
    ensures r.Err? ==> r.error == Underrun && |bs.data| < MrlHeaderSize
    ensures r.Ok? ==> MrlHeaderSize <= |bs.data| && r.value == MrlHeaderOf(bs.data[..MrlHeaderSize])
  {
    var version := ReadRecordField(bs, 4, 0, MrlHeaderSize, 4);
    if version.Err? { return Err(version.error); }
    var matCount := ReadRecordField(bs, 4, 0, MrlHeaderSize, 8);
    if matCount.Err? { return Err(matCount.error); }
    var texCount := ReadRecordField(bs, 4, 0, MrlHeaderSize, 12);
    if texCount.Err? { return Err(texCount.error); }
    var unused1 := ReadRecordField(bs, 4, 0, MrlHeaderSize, 16);
    if unused1.Err? { return Err(unused1.error); }
    var unused2 := ReadRecordField(bs, 4, 0, MrlHeaderSize, 20);
    if unused2.Err? { return Err(unused2.error); }
    var texOffset := ReadRecordField(bs, 8, 0, MrlHeaderSize, 24);
    if texOffset.Err? { return Err(texOffset.error); }
    var matOffset := ReadRecordField(bs, 8, 0, MrlHeaderSize, 32);
    if matOffset.Err? { return Err(matOffset.error); }
    assert bs.data[0..MrlHeaderSize] == bs.data[..MrlHeaderSize];
    r := Ok(MrlHeader(version.value, matCount.value, texCount.value, texOffset.value, matOffset.value));
  }

  /** Bytes 0-16 of a material record: shader hash, an unused word, name hash and size. */
  method ReadMatHashes(bs: Reader, ghost base: nat) returns (r: Result<seq<nat>>)
    requires bs.offset == base
    modifies bs
    ensures r.Err? ==> r.error == Underrun && |bs.data| < base + MatRecordSize
    ensures r.Ok? ==> bs.offset == base + 16 && base + 16 <= |bs.data|
    ensures r.Ok? && base + MatRecordSize <= |bs.data| ==>
      var rec := bs.data[base..base + MatRecordSize];
      r.value == [Field(rec, 0, 4), Field(rec, 8, 4)]
  {
    var shaderHash := ReadRecordField(bs, 4, base, MatRecordSize, 0);
    if shaderHash.Err? { return Err(shaderHash.error); }
    var unk1 := ReadRecordField(bs, 4, base, MatRecordSize, 4);
    if unk1.Err? { return Err(unk1.error); }
    var matnameHash := ReadRecordField(bs, 4, base, MatRecordSize, 8);
    if matnameHash.Err? { return Err(matnameHash.error); }
    var matSize := ReadRecordField(bs, 4, base, MatRecordSize, 12);
    if matSize.Err? { return Err(matSize.error); }
    r := Ok([shaderHash.value, matnameHash.value]);
  }

  /** Bytes 16-32 of a material record: three unused words, then the binding count and three bytes. */
  method ReadMatCount(bs: Reader, ghost base: nat) returns (r: Result<nat>)
    requires bs.offset == base + 16
    modifies bs
    ensures r.Err? ==> r.error == Underrun && |bs.data| < base + MatRecordSize
    ensures r.Ok? ==> bs.offset == base + 32 && base + 32 <= |bs.data|
    ensures r.Ok? && base + MatRecordSize <= |bs.data| ==>
      r.value == Field(bs.data[base..base + MatRecordSize], 28, 1)
  {
    var unk2 := ReadRecordField(bs, 4, base, MatRecordSize, 16);
    if unk2.Err? { return Err(unk2.error); }
    var unk3 := ReadRecordField(bs, 4, base, MatRecordSize, 20);
    if unk3.Err? { return Err(unk3.error); }
    var unk4 := ReadRecordField(bs, 4, base, MatRecordSize, 24);
    if unk4.Err? { return Err(unk4.error); }
    var dataSize := ReadRecordField(bs, 1, base, MatRecordSize, 28);
    if dataSize.Err? { return Err(dataSize.error); }
    var unk5 := ReadRecordField(bs, 1, base, MatRecordSize, 29);
    if unk5.Err? { return Err(unk5.error); }
    var alphaCoef := ReadRecordField(bs, 1, base, MatRecordSize, 30);
    if alphaCoef.Err? { return Err(alphaCoef.error); }
    var unk6 := ReadRecordField(bs, 1, base, MatRecordSize, 31);
    if unk6.Err? { return Err(unk6.error); }
    r := Ok(dataSize.value);
  }

  /** Bytes 32-72 of a material record: six unused words, the binding offset and an unused u64. */
  method ReadMatOffset(bs: Reader, ghost base: nat) returns (r: Result<nat>)
    requires bs.offset == base + 32
    modifies bs
    ensures r.Err? ==> r.error == Underrun && |bs.data| < base + MatRecordSize
    ensures r.Ok? ==> bs.offset == base + MatRecordSize && base + MatRecordSize <= |bs.data|
    ensures r.Ok? ==> r.value == Field(bs.data[base..base + MatRecordSize], 56, 8)
  {
    var unk7 := ReadRecordField(bs, 4, base, MatRecordSize, 32);
    if unk7.Err? { return Err(unk7.error); }
    var unk8 := ReadRecordField(bs, 4, base, MatRecordSize, 36);
    if unk8.Err? { return Err(unk8.error); }
    var unk9 := ReadRecordField(bs, 4, base, MatRecordSize, 40);
    if unk9.Err? { return Err(unk9.error); }
    var unk10 := ReadRecordField(bs, 4, base, MatRecordSize, 44);
    if unk10.Err? { return Err(unk10.error); }
    var unk11 := ReadRecordField(bs, 4, base, MatRecordSize, 48);
    if unk11.Err? { return Err(unk11.error); }
    var unk12 := ReadRecordField(bs, 4, base, MatRecordSize, 52);
    if unk12.Err? { return Err(unk12.error); }
    var dataOffset := ReadRecordField(bs, 8, base, MatRecordSize, 56);
    if dataOffset.Err? { return Err(dataOffset.error); }
    var unk13 := ReadRecordField(bs, 8, base, MatRecordSize, 64);
    if unk13.Err? { return Err(unk13.error); }
    r := Ok(dataOffset.value);
  }

  /** One 72-byte material record. */
  method ReadMatInfo(bs: Reader, ghost base: nat) returns (r: Result<MatInfo>)
    requires bs.offset == base
    modifies bs
    ensures r == MatInfoAt(bs.data, base)
    ensures r.Ok? ==> bs.offset == base + MatRecordSize
  {
    var hashes := ReadMatHashes(bs, base);
    if hashes.Err? { return Err(hashes.error); }
    var dataSize := ReadMatCount(bs, base);
    if dataSize.Err? { return Err(dataSize.error); }
    var dataOffset := ReadMatOffset(bs, base);
    if dataOffset.Err? { return Err(dataOffset.error); }
    r := Ok(MatInfo(hashes.value[0], hashes.value[1], dataSize.value, dataOffset.value));
  }

  /** Bytes 0-8 of a binding: its kind byte, three unused bytes and an unused word. */
  method ReadBindingKind(bs: Reader, ghost base: nat) returns (r: Result<nat>)
    requires bs.offset == base
    modifies bs
    ensures r.Err? ==> r.error == Underrun && |bs.data| < base + BindingSize
    ensures r.Ok? ==> bs.offset == base + 8 && base + 8 <= |bs.data|
    ensures r.Ok? && base + BindingSize <= |bs.data| ==>
      r.value == Field(bs.data[base..base + BindingSize], 0, 1)
  {
    var kind := ReadRecordField(bs, 1, base, BindingSize, 0);
    if kind.Err? { return Err(kind.error); }
    var pad1 := ReadRecordField(bs, 1, base, BindingSize, 1);
    if pad1.Err? { return Err(pad1.error); }
    var pad2 := ReadRecordField(bs, 1, base, BindingSize, 2);
    if pad2.Err? { return Err(pad2.error); }
    var pad3 := ReadRecordField(bs, 1, base, BindingSize, 3);
    if pad3.Err? { return Err(pad3.error); }
    var unused := ReadRecordField(bs, 4, base, BindingSize, 4);
    if unused.Err? { return Err(unused.error); }
    r := Ok(kind.value);
  }

  /** One 24-byte resource binding. */
  method ReadBinding(bs: Reader, ghost base: nat) returns (r: Result<Binding>)
    requires bs.offset == base
    modifies bs
    ensures r == BindingAt(bs.data, base)
    ensures r.Ok? ==> bs.offset == base + BindingSize
  {
    var kind := ReadBindingKind(bs, base);
    if kind.Err? { return Err(kind.error); }
    var id := ReadRecordField(bs, 4, base, BindingSize, 8);
    if id.Err? { return Err(id.error); }
    var unused1 := ReadRecordField(bs, 4, base, BindingSize, 12);
    if unused1.Err? { return Err(unused1.error); }
    var hash := ReadRecordField(bs, 4, base, BindingSize, 16);
    if hash.Err? { return Err(hash.error); }
    var unused2 := ReadRecordField(bs, 4, base, BindingSize, 20);
    if unused2.Err? { return Err(unused2.error); }
    r := Ok(Binding(kind.value, id.value, hash.value));
  }

  /** `count` material records in a row from `base`. */
  method ReadMatInfos(bs: Reader, count: nat, ghost base: nat) returns (r: Result<seq<MatInfo>>)
    requires bs.offset == base
    modifies bs
    ensures r == Collect(count, MatInfoFrom(bs.data, base))
  {
    ghost var f := MatInfoFrom(bs.data, base);
    var infos: seq<MatInfo> := [];
    for i := 0 to count
      invariant bs.offset == base + MatRecordSize * i && |infos| == i
      invariant forall t :: 0 <= t < i ==> f(t) == Ok(infos[t])
    {
      var info := ReadMatInfo(bs, base + MatRecordSize * i);
      assert f(i) == info;
      if info.Err? {
        CollectOfAll(i, f, infos);
        CollectFailsAt(i, count, f);
        return Err(info.error);
      }
      infos := infos + [info.value];
    }
    CollectOfAll(count, f, infos);
    r := Ok(infos);
  }

  class MrlParser {
    const bs: Reader
    var magic: nat

    constructor (data: seq<uint8>)
      ensures bs.data == data && bs.offset == 0 && fresh(bs)
    {
      bs := new Reader(data);
      magic := 0;
    }

    /** Magic first, kept on the parser; a wrong one is refused before anything else is read. */
    method ReadHeader() returns (r: Result<MrlHeader>)
      requires bs.offset == 0
      modifies this, bs
      ensures r == ParseMrlHeader(bs.data)
      ensures r.Ok? ==> magic == MrlMagic
      ensures r.Err? && r.error.BadMagic? ==> magic == r.error.magic
    {
      var m := bs.ReadUInt();
      if m.Err? {
        return Err(m.error);
      }
      magic := m.value;
      if magic != MrlMagic {
        return Err(BadMagic(magic));
      }
      r := ReadMrlHeaderFields(bs);
    }

    /**
      The texture walk: slot after slot from the table offset until
      `texCount` entries are appended; a zero discriminator appends nothing.
    */
    method ReadTextures(h: MrlHeader) returns (r: Result<seq<Option<string>>>)
      modifies bs
      ensures r == TexWalk(bs.data, h.texOffset, h.texCount)
    {
      bs.Seek(h.texOffset);
      var paths: seq<Option<string>> := [];
      var texI := 0;
      assert PrependPaths([], TexWalk(bs.data, bs.offset, h.texCount)) == TexWalk(bs.data, h.texOffset, h.texCount) by {
        var w := TexWalk(bs.data, h.texOffset, h.texCount);
        if w.Ok? {
          assert [] + w.value == w.value;
        }
      }
      while texI < h.texCount
        invariant bs.offset >= 0 && texI <= h.texCount
        invariant TexWalk(bs.data, h.texOffset, h.texCount) ==
          PrependPaths(paths, TexWalk(bs.data, bs.offset, h.texCount - texI))
        decreases h.texCount - texI, |bs.data| - bs.offset
      {
        var origin: nat := bs.Tell();
        TexWalkStep(bs.data, origin, h.texCount - texI);
        var slot := ReadSlot();
        if slot.Err? {
          return Err(slot.error);
        }
        if slot.value.entry.Some? {
          PrependPathsTwice(paths, [slot.value.entry.value], TexWalk(bs.data, bs.offset, h.texCount - texI - 1));
          paths := paths + [slot.value.entry.value];
          texI := texI + 1;
        }
      }
      assert paths + [] == paths;
      r := Ok(paths);
    }

    /**
      One slot of the walk: the discriminator, then for the path
      discriminator a word, two u64 and the path; the cursor then moves to
      the next slot as the size table says.
    */
    method ReadSlot() returns (r: Result<Slot>)
      requires bs.offset >= 0
      modifies bs
      ensures r == SlotAt(bs.data, old(bs.offset))
      ensures r.Ok? ==> bs.offset == r.value.next
    {
      var origin: nat := bs.Tell();
      BytesFrom(bs.data, origin, 4);
      var tag := bs.ReadUInt();
      if tag.Err? {
        return Err(tag.error);
      }
      if tag.value in SlotSizes {
        var entry: Option<Option<string>>;
        if tag.value == PathTag {
          BytesFrom(bs.data, origin + 4, 4);
          BytesFrom(bs.data, origin + 8, 8);
          BytesFrom(bs.data, origin + 16, 8);
          var unk1 := bs.ReadUInt();
          if unk1.Err? {
            return Err(unk1.error);
          }
          var unk2 := bs.ReadUInt64();
          if unk2.Err? {
            return Err(unk2.error);
          }
          var unk3 := bs.ReadUInt64();
          if unk3.Err? {
            return Err(unk3.error);
          }
          var path := bs.ReadString();
          if path.Err? {
            return Err(path.error);
          }
          entry := Some(Some(path.value));
        } else if tag.value == 0 {
          entry := None;
        } else {
          entry := Some(None);
        }
        bs.Seek(origin + SlotSizes[tag.value]);
        r := Ok(Slot(entry, origin + SlotSizes[tag.value]));
      } else {
        bs.Seek(origin + UnlistedSlot);
        r := Ok(Slot(Some(None), origin + UnlistedSlot));
      }
    }

    /**
      One binding classified by the low four bits of its kind: a texture the
      dictionary knows takes its path from the table, a known property is
      added, everything else is dropped.
    */
    method ApplyBinding(current: Material, b: Binding, paths: seq<Option<string>>, names: map<string, string>)
      returns (r: Result<Material>)
      ensures r == Bind(current, b, paths, names)
    {
      var kind := b.kind % 16;    // `ressource_type & 0xF`
      var key := Hex(b.hash);
      var m := current;
      if kind == TextureKind && key in names {
        var path := PyIndex(paths, b.id - 1);
        if path.Err? {
          return Err(path.error);
        }
        m := m.(textures := m.textures[names[key] := path.value]);
      }
      if kind == PropertyKind && key in names {
        m := m.(properties := m.properties + {names[key]});
      }
      r := Ok(m);
    }

    /** Binding `j` of a material: read it, then apply it to the material so far. */
    method ReadBindingInto(info: MatInfo, j: nat, current: Material, paths: seq<Option<string>>,
                           names: map<string, string>) returns (r: Result<Material>)
      requires bs.offset == info.dataOffset + BindingSize * j
      requires BindAll(bs.data, info, j, paths, names) == Ok(current)
      modifies bs
      ensures r == BindAll(bs.data, info, j + 1, paths, names)
      ensures r.Ok? ==> bs.offset == info.dataOffset + BindingSize * (j + 1)
    {
      BindAllStep(bs.data, info, j, paths, names, current);
      var b := ReadBinding(bs, info.dataOffset + BindingSize * j);
      if b.Err? {
        return Err(b.error);
      }
      r := ApplyBinding(current, b.value, paths, names);
    }

    /**
      The bindings of one material, from its data offset: texture bindings
      the dictionary knows set a slot to a table entry, known property
      bindings add a property, everything else is dropped.
    */
    method ReadMaterial(info: MatInfo, paths: seq<Option<string>>, names: map<string, string>)
      returns (r: Result<Material>)
      modifies bs
      ensures r == MaterialOf(bs.data, info, paths, names)
    {
      var current := Blank(info);
      bs.Seek(info.dataOffset);
      for j := 0 to info.dataSize
        invariant bs.offset == info.dataOffset + BindingSize * j
        invariant BindAll(bs.data, info, j, paths, names) == Ok(current)
      {
        var next := ReadBindingInto(info, j, current, paths, names);
        if next.Err? {
          BindAllSticky(bs.data, info, j + 1, info.dataSize, paths, names);
          return Err(next.error);
        }
        current := next.value;
      }
      r := Ok(current);
    }

    /**
      `read`: the header, the texture walk, every material record, then each
      material's bindings; the result maps each name hash to its material.
    */
    method Read(names: map<string, string>) returns (r: Result<map<nat, Material>>)
      requires bs.offset == 0
      modifies this, bs
      ensures r == ParseMrl(bs.data, names)
      ensures r.Ok? ==> magic == MrlMagic
    {
      var h := ReadHeader();
      if h.Err? {
        return Err(h.error);
      }
      var paths := ReadTextures(h.value);
      if paths.Err? {
        return Err(paths.error);
      }
      bs.Seek(h.value.matOffset);
      var infos := ReadMatInfos(bs, h.value.matCount, h.value.matOffset);
      if infos.Err? {
        return Err(infos.error);
      }
      r := ReadLibrary(infos.value, paths.value, names);
    }

    /** Each material in record order; a later record replaces an earlier one with its name hash. */
    method ReadLibrary(infos: seq<MatInfo>, paths: seq<Option<string>>, names: map<string, string>)
      returns (r: Result<map<nat, Material>>)
      modifies bs
      ensures r == Library(bs.data, infos, paths, names)
    {
      var all: map<nat, Material> := map[];
      for i := 0 to |infos|
        invariant Library(bs.data, infos[..i], paths, names) == Ok(all)
      {
        var m := ReadMaterial(infos[i], paths, names);
        assert infos[..i + 1][..i] == infos[..i];
        if m.Err? {
          LibrarySticky(bs.data, infos, i + 1, paths, names);
          return Err(m.error);
        }
        all := all[infos[i].matnameHash := m.value];
      }
      assert infos[..|infos|] == infos;
      r := Ok(all);
    }
  }
}

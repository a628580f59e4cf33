/**
  `ModParser`: the model reader as the tool runs it, one cursor read at a
  time. Each reading method is proved to compute the matching function of
  `ModFile`, so what is proved there holds of what the parser returns.
*/
module ModReader {
  import opened Binary
  import opened Cursor
  import opened Layouts
  import opened ModFile

  // ---------------------------------------------------------------------------
  // Records read field by field

  /** The four floats of row `k` of the `size`-byte record at `base`. */
  method ReadRow(bs: Reader, ghost base: nat, ghost size: nat, ghost k: nat) returns (r: Result<Row>)
    requires k + 16 <= size && bs.offset == base + k
    modifies bs
    ensures r.Err? ==> r.error == Underrun && |bs.data| < base + size
    ensures base + size <= |bs.data| ==> r == Ok(RowAt(bs.data[base..base + size], k))
    ensures r.Ok? ==> bs.offset == base + k + 16 && base + k + 16 <= |bs.data|
  {
    var a := ReadRecordSingle(bs, base, size, k);
    if a.Err? {
      return Err(a.error);
    }
    var b := ReadRecordSingle(bs, base, size, k + 4);
    if b.Err? {
      return Err(b.error);
    }
    var c := ReadRecordSingle(bs, base, size, k + 8);
    if c.Err? {
      return Err(c.error);
    }
    var d := ReadRecordSingle(bs, base, size, k + 12);
    if d.Err? {
      return Err(d.error);
    }
    r := Ok(Row(a.value, b.value, c.value, d.value));
  }

  /** A 4x4 matrix of floats, row after row. */
  method ReadMatrix(bs: Reader, ghost base: nat) returns (r: Result<Matrix>)
    requires bs.offset == base
    modifies bs
    ensures r == MatrixAt(bs.data, base)
    ensures r.Ok? ==> bs.offset == base + MatrixSize
  {
    var r0 := ReadRow(bs, base, MatrixSize, 0);
    if r0.Err? {
      return Err(r0.error);
    }
    var r1 := ReadRow(bs, base, MatrixSize, 16);
    if r1.Err? {
      return Err(r1.error);
    }
    var r2 := ReadRow(bs, base, MatrixSize, 32);
    if r2.Err? {
      return Err(r2.error);
    }
    var r3 := ReadRow(bs, base, MatrixSize, 48);
    if r3.Err? {
      return Err(r3.error);
    }
    r := Ok(Matrix(r0.value, r1.value, r2.value, r3.value));
  }

  /** The 24-byte record of one bone. */
  method ReadBoneInfo(bs: Reader, ghost base: nat) returns (r: Result<BoneInfo>)
    requires bs.offset == base
    modifies bs
    ensures r == BoneInfoAt(bs.data, base)
    ensures r.Ok? ==> bs.offset == base + BoneRecordSize
  {
    var function_ := ReadRecordField(bs, 2, base, BoneRecordSize, 0);
    if function_.Err? {
      return Err(function_.error);
    }
    var parent := ReadRecordField(bs, 1, base, BoneRecordSize, 2);
    if parent.Err? {
      return Err(parent.error);
    }
    var child := ReadRecordField(bs, 1, base, BoneRecordSize, 3);
    if child.Err? {
      return Err(child.error);
    }
    var float1 := ReadRecordSingle(bs, base, BoneRecordSize, 4);
    if float1.Err? {
      return Err(float1.error);
    }
    var length := ReadRecordSingle(bs, base, BoneRecordSize, 8);
    if length.Err? {
      return Err(length.error);
    }
    var x := ReadRecordSingle(bs, base, BoneRecordSize, 12);
    if x.Err? {
      return Err(x.error);
    }
    var y := ReadRecordSingle(bs, base, BoneRecordSize, 16);
    if y.Err? {
      return Err(y.error);
    }
    var z := ReadRecordSingle(bs, base, BoneRecordSize, 20);
    if z.Err? {
      return Err(z.error);
    }
    ghost var rec := bs.data[base..base + BoneRecordSize];
    assert function_.value == Field(rec, 0, 2) && parent.value == Field(rec, 2, 1) && child.value == Field(rec, 3, 1);
    assert float1.value == SingleField(rec, 4) && length.value == SingleField(rec, 8);
    r := Ok(BoneInfo(function_.value, parent.value, child.value,
                     float1.value, length.value, x.value, y.value, z.value));
  }

  /** The header after its magic and version: counts, offsets, then the twelve bound floats. */
  method ReadHeaderFields(bs: Reader) returns (r: Result<Header>)
    requires bs.offset == 6
    modifies bs
    ensures r.Err? ==> r.error == Underrun && |bs.data| < HeaderSize
    ensures r.Ok? ==> HeaderSize <= |bs.data| && r.value == HeaderOf(bs.data[..HeaderSize])
  {
    var boneCount := ReadRecordField(bs, 2, 0, HeaderSize, 6);
    if boneCount.Err? { return Err(boneCount.error); }
    var meshCount := ReadRecordField(bs, 2, 0, HeaderSize, 8);
    if meshCount.Err? { return Err(meshCount.error); }
    var matCount := ReadRecordField(bs, 2, 0, HeaderSize, 10);
    if matCount.Err? { return Err(matCount.error); }
    var vertCount := ReadRecordField(bs, 4, 0, HeaderSize, 12);
    if vertCount.Err? { return Err(vertCount.error); }
    var faceCount := ReadRecordField(bs, 4, 0, HeaderSize, 16);
    if faceCount.Err? { return Err(faceCount.error); }
    var edgeCount := ReadRecordField(bs, 4, 0, HeaderSize, 20);
    if edgeCount.Err? { return Err(edgeCount.error); }
    var offsets := ReadOffsets(bs);
    if offsets.Err? { return Err(offsets.error); }
    var bounds := ReadBounds(bs);
    if bounds.Err? { return Err(bounds.error); }
    var o := offsets.value;
    ghost var rec := bs.data[..HeaderSize];
    assert boneCount.value == Field(rec, 6, 2) && meshCount.value == Field(rec, 8, 2) && matCount.value == Field(rec, 10, 2);
    assert vertCount.value == Field(rec, 12, 4) && faceCount.value == Field(rec, 16, 4) && edgeCount.value == Field(rec, 20, 4);
    r := Ok(Header(boneCount.value, meshCount.value, matCount.value,
                   vertCount.value, faceCount.value, edgeCount.value,
                   o[0], o[1], o[2], o[3], o[4], o[5], o[6], o[7], o[8], bounds.value));
  }

  /** The nine 64-bit sizes and offsets of the header, from byte 24. */
  method ReadOffsets(bs: Reader) returns (r: Result<seq<nat>>)
    requires bs.offset == 24
    modifies bs
    ensures r.Err? ==> r.error == Underrun && |bs.data| < HeaderSize
    ensures r.Ok? ==> bs.offset == 96 && 96 <= |bs.data| && |r.value| == 9
    ensures r.Ok? && HeaderSize <= |bs.data| ==>
      forall j :: 0 <= j < 9 ==> r.value[j] == Field(bs.data[..HeaderSize], 24 + 8 * j, 8)
  {
    var offsets: seq<nat> := [];
    for j := 0 to 9
      invariant bs.offset == 24 + 8 * j && |offsets| == j && (j > 0 ==> 24 + 8 * j <= |bs.data|)
      invariant HeaderSize <= |bs.data| ==>
        forall t :: 0 <= t < j ==> offsets[t] == Field(bs.data[..HeaderSize], 24 + 8 * t, 8)
    {
      var o := ReadRecordField(bs, 8, 0, HeaderSize, 24 + 8 * j);
      if o.Err? {
        return Err(o.error);
      }
      offsets := offsets + [o.value];
    }
    r := Ok(offsets);
  }

  /** The bounding sphere and box: twelve floats from byte 96. */
  method ReadBounds(bs: Reader) returns (r: Result<seq<Single>>)
    requires bs.offset == 96
    modifies bs
    ensures r.Err? ==> r.error == Underrun && |bs.data| < HeaderSize
    ensures r.Ok? ==> bs.offset == HeaderSize && HeaderSize <= |bs.data| &&
                      r.value == BoundsPrefix(bs.data[..HeaderSize], 12)
  {
    var bounds: seq<Single> := [];
    for j := 0 to 12
      invariant bs.offset == 96 + 4 * j && (j > 0 ==> 96 + 4 * j <= |bs.data|)
      invariant HeaderSize <= |bs.data| ==> bounds == BoundsPrefix(bs.data[..HeaderSize], j)
    {
      var f := ReadRecordSingle(bs, 0, HeaderSize, 96 + 4 * j);
      if f.Err? {
        return Err(f.error);
      }
      bounds := bounds + [f.value];
    }
    r := Ok(bounds);
  }

  /** Bytes 0-7 of a mesh descriptor: shadow flags, vertex count, group and raw material short. */
  method ReadDescriptorCounts(bs: Reader, ghost base: nat) returns (r: Result<seq<nat>>)
    requires bs.offset == base
    modifies bs
    ensures r.Err? ==> r.error == Underrun && |bs.data| < base + DescriptorSize
    ensures r.Ok? ==> bs.offset == base + 7 && base + 7 <= |bs.data|
    ensures r.Ok? && base + DescriptorSize <= |bs.data| ==>
      var rec := bs.data[base..base + DescriptorSize];
      r.value == [Field(rec, 0, 2), Field(rec, 2, 2), Field(rec, 4, 1), Field(rec, 5, 2)]
  {
    var shadowFlags := ReadRecordField(bs, 2, base, DescriptorSize, 0);
    if shadowFlags.Err? { return Err(shadowFlags.error); }
    var vertCount := ReadRecordField(bs, 2, base, DescriptorSize, 2);
    if vertCount.Err? { return Err(vertCount.error); }
    var group := ReadRecordField(bs, 1, base, DescriptorSize, 4);
    if group.Err? { return Err(group.error); }
    var matIdx := ReadRecordField(bs, 2, base, DescriptorSize, 5);
    if matIdx.Err? { return Err(matIdx.error); }
    r := Ok([shadowFlags.value, vertCount.value, group.value, matIdx.value]);
  }

  /** Bytes 7-16 of a mesh descriptor: raw level, block size and three fields of unknown use. */
  method ReadDescriptorBlock(bs: Reader, ghost base: nat) returns (r: Result<seq<nat>>)
    requires bs.offset == base + 7
    modifies bs
    ensures r.Err? ==> r.error == Underrun && |bs.data| < base + DescriptorSize
    ensures r.Ok? ==> bs.offset == base + 16 && base + 16 <= |bs.data|
    ensures r.Ok? && base + DescriptorSize <= |bs.data| ==>
      var rec := bs.data[base..base + DescriptorSize];
      r.value == [Field(rec, 7, 1), Field(rec, 8, 2), Field(rec, 10, 1), Field(rec, 11, 1),
                  Field(rec, 12, 2), Field(rec, 14, 2)]
  {
    var lod := ReadRecordField(bs, 1, base, DescriptorSize, 7);
    if lod.Err? { return Err(lod.error); }
    var unkShort1 := ReadRecordField(bs, 2, base, DescriptorSize, 8);
    if unkShort1.Err? { return Err(unkShort1.error); }
    var blocksize := ReadRecordField(bs, 1, base, DescriptorSize, 10);
    if blocksize.Err? { return Err(blocksize.error); }
    var unkByte3 := ReadRecordField(bs, 1, base, DescriptorSize, 11);
    if unkByte3.Err? { return Err(unkByte3.error); }
    var unkShort2 := ReadRecordField(bs, 2, base, DescriptorSize, 12);
    if unkShort2.Err? { return Err(unkShort2.error); }
    var unkShort3 := ReadRecordField(bs, 2, base, DescriptorSize, 14);
    if unkShort3.Err? { return Err(unkShort3.error); }
    r := Ok([lod.value, unkShort1.value, blocksize.value, unkByte3.value, unkShort2.value, unkShort3.value]);
  }

  /** Bytes 16-36 of a mesh descriptor: buffer offset, encoding and the face range. */
  method ReadDescriptorBuffers(bs: Reader, ghost base: nat) returns (r: Result<seq<nat>>)
    requires bs.offset == base + 16
    modifies bs
    ensures r.Err? ==> r.error == Underrun && |bs.data| < base + DescriptorSize
    ensures r.Ok? ==> bs.offset == base + 36 && base + 36 <= |bs.data|
    ensures r.Ok? && base + DescriptorSize <= |bs.data| ==>
      var rec := bs.data[base..base + DescriptorSize];
      r.value == [Field(rec, 16, 4), Field(rec, 20, 4), Field(rec, 24, 4), Field(rec, 28, 4), Field(rec, 32, 4)]
  {
    var bufferOffset := ReadRecordField(bs, 4, base, DescriptorSize, 16);
    if bufferOffset.Err? { return Err(bufferOffset.error); }
    var encoding := ReadRecordField(bs, 4, base, DescriptorSize, 20);
    if encoding.Err? { return Err(encoding.error); }
    var faceSub := ReadRecordField(bs, 4, base, DescriptorSize, 24);
    if faceSub.Err? { return Err(faceSub.error); }
    var faceCount := ReadRecordField(bs, 4, base, DescriptorSize, 28);
    if faceCount.Err? { return Err(faceCount.error); }
    var unkInt1 := ReadRecordField(bs, 4, base, DescriptorSize, 32);
    if unkInt1.Err? { return Err(unkInt1.error); }
    r := Ok([bufferOffset.value, encoding.value, faceSub.value, faceCount.value, unkInt1.value]);
  }

  /** Bytes 36-56 of a mesh descriptor: four shorts and three ints of unknown use. */
  method ReadDescriptorTail(bs: Reader, ghost base: nat) returns (r: Result<seq<nat>>)
    requires bs.offset == base + 36
    modifies bs
    ensures r.Err? ==> r.error == Underrun && |bs.data| < base + DescriptorSize
    ensures r.Ok? ==> base + DescriptorSize <= |bs.data|
    ensures r.Ok? ==>
      var rec := bs.data[base..base + DescriptorSize];
      r.value == [Field(rec, 36, 2), Field(rec, 38, 2), Field(rec, 40, 2), Field(rec, 42, 2),
                  Field(rec, 44, 4), Field(rec, 48, 4), Field(rec, 52, 4)]
  {
    var unkShort4 := ReadRecordField(bs, 2, base, DescriptorSize, 36);
    if unkShort4.Err? { return Err(unkShort4.error); }
    var unkShort45 := ReadRecordField(bs, 2, base, DescriptorSize, 38);
    if unkShort45.Err? { return Err(unkShort45.error); }
    var unkShort5 := ReadRecordField(bs, 2, base, DescriptorSize, 40);
    if unkShort5.Err? { return Err(unkShort5.error); }
    var unkShort6 := ReadRecordField(bs, 2, base, DescriptorSize, 42);
    if unkShort6.Err? { return Err(unkShort6.error); }
    var unkInt2 := ReadRecordField(bs, 4, base, DescriptorSize, 44);
    if unkInt2.Err? { return Err(unkInt2.error); }
    var unkInt3 := ReadRecordField(bs, 4, base, DescriptorSize, 48);
    if unkInt3.Err? { return Err(unkInt3.error); }
    var unkInt4 := ReadRecordField(bs, 4, base, DescriptorSize, 52);
    if unkInt4.Err? { return Err(unkInt4.error); }
    r := Ok([unkShort4.value, unkShort45.value, unkShort5.value, unkShort6.value,
             unkInt2.value, unkInt3.value, unkInt4.value]);
  }

  /**
    One 56-byte mesh descriptor at the cursor: the material index is the raw
    short over 16 and the level comes from the raw level byte.
  */
  method ReadDescriptor(bs: Reader, ghost base: nat) returns (r: Result<Descriptor>)
    requires bs.offset == base
    modifies bs
    ensures r == DescriptorAt(bs.data, base)
  {
    var counts := ReadDescriptorCounts(bs, base);
    if counts.Err? { return Err(counts.error); }
    var block := ReadDescriptorBlock(bs, base);
    if block.Err? { return Err(block.error); }
    var buffers := ReadDescriptorBuffers(bs, base);
    if buffers.Err? { return Err(buffers.error); }
    var tail := ReadDescriptorTail(bs, base);
    if tail.Err? { return Err(tail.error); }
    var a, k, b, c := counts.value, block.value, buffers.value, tail.value;
    r := Ok(Descriptor(a[0], a[1], a[2], a[3] / 16, k[0], LodOf(k[0]), k[1], k[2], k[3], k[4], k[5],
                       b[0], b[1], b[2], b[3], b[4], c[0], c[1], c[2], c[3], c[4], c[5], c[6]));
  }

  // ---------------------------------------------------------------------------
  // The skeleton arrays

  /** `count` bone records in a row from `base`. */
  method ReadBoneInfos(bs: Reader, count: nat, ghost base: nat) returns (r: Result<seq<BoneInfo>>)
    requires bs.offset == base
    modifies bs
    ensures r == Collect(count, InfoFrom(bs.data, base))
    ensures r.Ok? ==> bs.offset == base + BoneRecordSize * count
  {
    ghost var f := InfoFrom(bs.data, base);
    var infos: seq<BoneInfo> := [];
    for i := 0 to count
      invariant bs.offset == base + 24 * i && |infos| == i
      invariant forall t :: 0 <= t < i ==> f(t) == Ok(infos[t])
    {
      var info := ReadBoneInfo(bs, base + 24 * i);
      assert f(i) == info;
      if info.Err? {
        CollectOfAll(i, f, infos);
        CollectFailsAt(i, count, f);
        return Err(info.error);
      }
      infos := infos + [info.value];
    }
    CollectOfAll(count, f, infos);
    r := Ok(infos);
  }

  /** `count` 4x4 matrices in a row from `base`. */
  method ReadMatrices(bs: Reader, count: nat, ghost base: nat) returns (r: Result<seq<Matrix>>)
    requires bs.offset == base
    modifies bs
    ensures r == Collect(count, MatrixFrom(bs.data, base))
    ensures r.Ok? ==> bs.offset == base + MatrixSize * count
  {
    ghost var f := MatrixFrom(bs.data, base);
    var matrices: seq<Matrix> := [];
    for i := 0 to count
      invariant bs.offset == base + 64 * i && |matrices| == i
      invariant forall t :: 0 <= t < i ==> f(t) == Ok(matrices[t])
    {
      var m := ReadMatrix(bs, base + 64 * i);
      assert f(i) == m;
      if m.Err? {
        CollectOfAll(i, f, matrices);
        CollectFailsAt(i, count, f);
        return Err(m.error);
      }
      matrices := matrices + [m.value];
    }
    CollectOfAll(count, f, matrices);
    r := Ok(matrices);
  }

  /**
    The 4096 remap bytes: the table starts as the identity and each byte
    other than 255 is sent to its position; a bone named by a byte takes
    that position as its remap, and every other bone keeps its own index.
    Bytes naming no bone of the model are ignored for the bones.
  */
  method ReadRemap(bs: Reader, count: nat, ghost base: nat) returns (r: Result<(seq<nat>, seq<nat>)>)
    requires bs.offset == base
    modifies bs
    ensures r.Err? ==> r.error == Underrun && |bs.data| < base + RemapSize
    ensures r.Ok? ==> base + RemapSize <= |bs.data|
    ensures r.Ok? ==>
      var t := bs.data[base..base + RemapSize];
      r.value.0 == RemapTable(t) &&
      |r.value.1| == count && forall v :: 0 <= v < count ==> r.value.1[v] == RemapOf(t, v)
  {
    var tmp := new nat[RemapSize](v => v);
    var links: seq<Option<nat>> := seq(count, _ => None);
    ghost var table: seq<uint8> := [];
    for i := 0 to RemapSize
      invariant bs.offset == base + i && |table| == i
      invariant forall j :: 0 <= j < i ==> base + j < |bs.data| && table[j] == bs.data[base + j]
      invariant tmp[..] == RemapTable(table)
      invariant |links| == count && forall v :: 0 <= v < count ==> links[v] == Link(table, v)
    {
      ByteAt(bs.data, base + i);
      var b := bs.ReadUByte();
      if b.Err? {
        return Err(b.error);
      }
      var v := b.value;
      assert (table + [v as uint8])[..i] == table;
      if v != NoBone {
        tmp[v] := i;
        if v < count {
          links := links[v := Some(i)];
        }
      }
      table := table + [v as uint8];
    }
    assert table == bs.data[base..base + RemapSize];
    var remaps := seq(count, v requires 0 <= v < count => if links[v].Some? then links[v].value else v);
    r := Ok((tmp[..], remaps));
  }

  // ---------------------------------------------------------------------------
  // The parser

  /** `ModParser`: a cursor over the file's bytes and the magic and version it read. */
  class ModParser {
    const bs: Reader
    var magic: nat
    var version: nat

    constructor (data: seq<uint8>)
      ensures bs.data == data && bs.offset == 0 && fresh(bs)
    {
      bs := new Reader(data);
      magic, version := 0, 0;
    }

    /**
      Magic and version, kept on the parser; a wrong pair is refused before
      anything else is read.
    */
    method ReadHeader() returns (r: Result<Header>)
      requires bs.offset == 0
      modifies this, bs
      ensures r == ParseHeader(bs.data)
      ensures r.Ok? ==> magic == ModMagic && version == ModVersion
      ensures r.Err? && r.error.BadModHeader? ==> magic == r.error.magic && version == r.error.version
    {
      var m := bs.ReadUInt();
      if m.Err? {
        return Err(m.error);
      }
      magic := m.value;
      var v := bs.ReadUShort();
      if v.Err? {
        return Err(v.error);
      }
      version := v.value;
      if magic != ModMagic || version != ModVersion {
        return Err(BadModHeader(magic, version));
      }
      r := ReadHeaderFields(bs);
    }

    /** One name per material, each from the start of its 128-byte slot. */
    method ReadMaterials(h: Header) returns (r: Result<seq<string>>)
      modifies bs
      ensures r == Materials(bs.data, h)
    {
      ghost var f := NameFrom(bs.data, h);
      var names: seq<string> := [];
      for i := 0 to h.matCount
        invariant |names| == i
        invariant forall t :: 0 <= t < i ==> f(t) == Ok(names[t])
      {
        bs.Seek(h.matnameOffset + i * NameStride);
        var name := bs.ReadString();
        assert f(i) == name;
        if name.Err? {
          CollectOfAll(i, f, names);
          CollectFailsAt(i, h.matCount, f);
          return Err(name.error);
        }
        names := names + [name.value];
      }
      CollectOfAll(h.matCount, f, names);
      r := Ok(names);
    }

    /**
      The bone records, the local and the global matrices and the remap table,
      read in one run from the bone offset; the scale is the diagonal of the
      first global matrix.
    */
    method ReadSkeleton(h: Header) returns (r: Result<Skeleton>)
      modifies bs
      ensures r == ParseSkeleton(bs.data, h)
    {
      bs.Seek(h.boneOffset);
      var n := h.boneCount;
      if n == 0 {
        return Ok(Skeleton([], UnitScale, None));
      }
      var infos := ReadBoneInfos(bs, n, h.boneOffset);
      if infos.Err? {
        return Err(infos.error);
      }
      var locals := ReadMatrices(bs, n, LocalBase(h));
      if locals.Err? {
        return Err(locals.error);
      }
      var globals := ReadMatrices(bs, n, GlobalBase(h));
      if globals.Err? {
        return Err(globals.error);
      }
      var remap := ReadRemap(bs, n, TableBase(h));
      if remap.Err? {
        return Err(remap.error);
      }
      var table, remaps := remap.value.0, remap.value.1;
      var bones := seq(n, i requires 0 <= i < n => Bone(i, infos.value[i], locals.value[i], globals.value[i], remaps[i]));
      ghost var t := bs.data[TableBase(h)..SkeletonEnd(h)];
      assert bones == BuildSkeleton(infos.value, locals.value, globals.value, t).bones;
      r := Ok(Skeleton(bones, DiagonalOf(globals.value[0]), Some(table)));
    }

    /** Every descriptor from the mesh offset, and whether any has levels of detail. */
    method ReadDescriptors(h: Header) returns (r: Result<seq<Descriptor>>, hasLod: bool)
      modifies bs
      ensures r == Descriptors(bs.data, h)
      ensures r.Ok? ==> (hasLod <==> HasLod(r.value))
    {
      ghost var f := DescriptorFrom(bs.data, h);
      var descs: seq<Descriptor> := [];
      hasLod := false;
      for i := 0 to h.meshCount
        invariant |descs| == i
        invariant forall t :: 0 <= t < i ==> f(t) == Ok(descs[t])
        invariant hasLod <==> HasLod(descs)
      {
        bs.Seek(h.meshOffset + i * DescriptorSize);
        var d := ReadDescriptor(bs, h.meshOffset + 0x38 * i);
        assert f(i) == d;
        if d.Err? {
          CollectOfAll(i, f, descs);
          CollectFailsAt(i, h.meshCount, f);
          return Err(d.error), hasLod;
        }
        if d.value.oriLod != NoLod {
          hasLod := true;
        }
        HasLodSnoc(descs, d.value);
        descs := descs + [d.value];
      }
      CollectOfAll(h.meshCount, f, descs);
      r := Ok(descs);
    }

    /** One pass of the mesh loop: the vertex run, the layout dispatch, then the face strip. */
    method ReadMesh(h: Header, sk: Skeleton, mats: seq<string>, id: nat, d: Descriptor,
                    hasLod: bool, dec: Decoder) returns (r: Result<Option<Mesh>>)
      modifies bs
      ensures r == MeshOf(bs.data, h, sk, mats, id, d, hasLod, dec)
    {
      bs.Seek(h.vbufferOffset + d.bufferOffset + d.unkInt1 * d.blocksize);
      var vertBytes := bs.ReadBytes(d.blocksize * (d.vertCount + d.unkShort2));
      assert vertBytes == VertexBytes(bs.data, h, d);
      var dispatch := LayoutOf(d.encoding);
      if !dispatch.Decode? {
        return Ok(None);
      }
      var arrays := Prepare(dispatch.layout, d.blocksize, vertBytes, sk.remap, dec);
      if arrays.Err? {
        return Err(arrays.error);
      }
      bs.Seek(h.fbufferOffset + d.faceSub * 2);
      var faceBytes := bs.ReadBytes(d.faceCount * 2);
      assert faceBytes == FaceBytes(bs.data, h, d);
      var m := Assemble(arrays.value, faceBytes, d, id, if hasLod then d.lod else 0, mats, sk.scale);
      if m.Err? {
        return Err(m.error);
      }
      r := Ok(Some(m.value));
    }

    /**
      The mesh loop: the meshes in descriptor order, the first failure ending
      the parse. For each, the vertex block, then its layout; an ignored or
      unknown encoding is skipped, otherwise the arrays are built, the face
      strip is read and the mesh assembled.
    */
    method ReadMeshes(h: Header, sk: Skeleton, mats: seq<string>, descs: seq<Descriptor>,
                      hasLod: bool, dec: Decoder) returns (r: Result<seq<Mesh>>)
      modifies bs
      ensures r == Present(|descs|, MeshFrom(bs.data, h, sk, mats, descs, hasLod, dec))
    {
      ghost var f := MeshFrom(bs.data, h, sk, mats, descs, hasLod, dec);
      var meshes: seq<Mesh> := [];
      for i := 0 to |descs|
        invariant Present(i, f) == Ok(meshes)
      {
        var m := ReadMesh(h, sk, mats, i, descs[i], hasLod, dec);
        assert f(i) == m;
        if m.Err? {
          PresentFails(i, |descs|, f);
          return Err(m.error);
        }
        PresentStep(i, f, meshes);
        if m.value.Some? {
          meshes := meshes + [m.value.value];
        }
      }
      r := Ok(meshes);
    }

    /** `read`: the bones and the decoded meshes of the model. */
    method Read(dec: Decoder) returns (r: Result<Model>)
      requires bs.offset == 0
      modifies this, bs
      ensures r == ParseMod(bs.data, dec)
      ensures r.Ok? ==> magic == ModMagic && version == ModVersion
    {
      var h := ReadHeader();
      if h.Err? {
        return Err(h.error);
      }
      var mats := ReadMaterials(h.value);
      if mats.Err? {
        return Err(mats.error);
      }
      var sk := ReadSkeleton(h.value);
      if sk.Err? {
        return Err(sk.error);
      }
      var descs, hasLod := ReadDescriptors(h.value);
      if descs.Err? {
        return Err(descs.error);
      }
      var meshes := ReadMeshes(h.value, sk.value, mats.value, descs.value, hasLod, dec);
      if meshes.Err? {
        return Err(meshes.error);
      }
      r := Ok(Model(sk.value.bones, meshes.value));
    }
  }
}

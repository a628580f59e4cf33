/**
  The model file (`.mod`) as a function of its bytes: the header with its
  magic and version check, the material names, the skeleton with its bone
  remap table, the mesh descriptors and the decoded meshes.

  Every read of the parser is a fixed-width field at a known offset, so each
  structure is described by the record of bytes it occupies: while the record
  lies inside the file the fields are its little-endian slices, and once it
  sticks out some read of it fails with `Underrun`. `ModParser` (in
  mod_parser.dfy) reads the same structures with the cursor and is proved to
  compute these functions.
*/
module ModFile {
  import opened Binary
  import opened Cursor
  import opened Crc
  import opened Strips
  import opened Layouts

  const ModMagic: nat := 4476749     // "MOD\0" read as a little-endian u32
  const ModVersion: nat := 214
  const HeaderSize: nat := 144
  const NameStride: nat := 128       // one material name slot
  const BoneRecordSize: nat := 24
  const MatrixSize: nat := 64        // sixteen 32-bit floats
  const RemapSize: nat := 4096       // the bone remap table, one byte per entry
  const DescriptorSize: nat := 0x38
  const NoBone: nat := 255           // a remap byte that names no bone
  const NoLod: nat := 0xff           // the raw level-of-detail byte of a mesh without levels

  // ---------------------------------------------------------------------------
  // Header

  datatype Header = Header(
    boneCount: nat, meshCount: nat, matCount: nat,
    vertCount: nat, faceCount: nat, edgeCount: nat,
    vbufferSize: nat, groupCount: nat, boneOffset: nat, groupOffset: nat,
    matnameOffset: nat, meshOffset: nat, vbufferOffset: nat, fbufferOffset: nat, offset4: nat,
    bounds: seq<Single>)    // bounding sphere x, y, z, r, then box minimum and maximum (x, y, z, w)

  /** The 32-bit float at `k` of a record. */
  function SingleField(rec: seq<uint8>, k: nat): Single
    requires k + 4 <= |rec|
  {
    Single(Field(rec, k, 4))
  }

  /** The first `n` of the twelve bound floats that follow the offsets. */
  function BoundsPrefix(rec: seq<uint8>, n: nat): (r: seq<Single>)
    requires 96 + 4 * n <= |rec|
    ensures |r| == n
  {
    if n == 0 then [] else BoundsPrefix(rec, n - 1) + [SingleField(rec, 96 + 4 * (n - 1))]
  }

  /**
    Magic and version first (a wrong pair raises with both values), then the
    counts, offsets and bounds of the 144-byte header.
  */
  function ParseHeader(data: seq<uint8>): (r: Result<Header>)
    ensures r.Ok? ==> |r.value.bounds| == 12
  {
    var magic :- UIntAt(data, 0, 4);
    var version :- UIntAt(data, 4, 2);
    if magic != ModMagic || version != ModVersion then Err(BadModHeader(magic, version))
    else if |data| < HeaderSize then Err(Underrun)
    else Ok(HeaderOf(data[..HeaderSize]))
  }

  /** The counts, offsets and bounds that follow the magic and version. */
  function HeaderOf(rec: seq<uint8>): (h: Header)
    requires |rec| == HeaderSize
    ensures |h.bounds| == 12
  {
    Header(Field(rec, 6, 2), Field(rec, 8, 2), Field(rec, 10, 2),
           Field(rec, 12, 4), Field(rec, 16, 4), Field(rec, 20, 4),
           Field(rec, 24, 8), Field(rec, 32, 8), Field(rec, 40, 8), Field(rec, 48, 8),
           Field(rec, 56, 8), Field(rec, 64, 8), Field(rec, 72, 8), Field(rec, 80, 8), Field(rec, 88, 8),
           BoundsPrefix(rec, 12))
  }

  /**
    A file is accepted exactly when it holds a whole header that starts with
    the model magic and version; a readable pair that is wrong is reported
    with its two values, and every other failure is a short read.
  */
  lemma HeaderAccepted(data: seq<uint8>)
    ensures ParseHeader(data).Ok? <==>
      |data| >= HeaderSize && LeUInt(data[0..4]) == ModMagic && LeUInt(data[4..6]) == ModVersion
    ensures |data| >= 6 && (LeUInt(data[0..4]) != ModMagic || LeUInt(data[4..6]) != ModVersion) ==>
      ParseHeader(data) == Err(BadModHeader(LeUInt(data[0..4]), LeUInt(data[4..6])))
    ensures ParseHeader(data).Err? && !ParseHeader(data).error.BadModHeader? ==>
      ParseHeader(data).error == Underrun
  {
    BytesFrom(data, 0, 4);
    BytesFrom(data, 4, 2);
  }

  // ---------------------------------------------------------------------------
  // Material names

  /** Material `i` is the NUL-terminated string in its 128-byte slot. */
  function NameFrom(data: seq<uint8>, h: Header): nat -> Result<string>
  {
    (i: nat) => CStringAt(data, h.matnameOffset + 128 * i)
  }

  function Materials(data: seq<uint8>, h: Header): Result<seq<string>>
  {
    Collect(h.matCount, NameFrom(data, h))
  }

  /** The names are read exactly when every slot holds a zero byte somewhere after its start. */
  lemma MaterialsFit(data: seq<uint8>, h: Header)
    ensures Materials(data, h).Ok? <==>
      forall i :: 0 <= i < h.matCount ==>
        exists k :: h.matnameOffset + 128 * i <= k < |data| && data[k] == 0
  {
    var f := NameFrom(data, h);
    CollectOkIff(h.matCount, f);
    forall i | 0 <= i < h.matCount
      ensures f(i).Ok? <==> exists k :: h.matnameOffset + 128 * i <= k < |data| && data[k] == 0
    {
      CStringScanSpec(data, h.matnameOffset + 128 * i);
    }
  }

  /**
    One name per slot; each is the bytes of its slot up to the first zero,
    one character per byte.
  */
  lemma MaterialNames(data: seq<uint8>, h: Header)
    requires Materials(data, h).Ok?
    ensures var names := Materials(data, h).value;
      |names| == h.matCount &&
      forall i :: 0 <= i < h.matCount ==> StringAt(data, h.matnameOffset + 128 * i, names[i])
  {
    var f := NameFrom(data, h);
    var names := Materials(data, h).value;
    CollectElements(h.matCount, f);
    forall i | 0 <= i < h.matCount
      ensures StringAt(data, h.matnameOffset + 128 * i, names[i])
    {
      assert f(i) == Ok(names[i]);
      CStringAtSpec(data, h.matnameOffset + 128 * i);
    }
  }

  // ---------------------------------------------------------------------------
  // Skeleton

  datatype BoneInfo = BoneInfo(
    boneFunction: nat, parent: nat, child: nat,
    float1: Single, length: Single, x: Single, y: Single, z: Single)

  datatype Row = Row(a: Single, b: Single, c: Single, d: Single)
  datatype Matrix = Matrix(r0: Row, r1: Row, r2: Row, r3: Row)

  datatype Bone = Bone(id: nat, info: BoneInfo, local: Matrix, global: Matrix, remap: nat)

  /** The scale of the model: the diagonal of the first global matrix, or one along each axis. */
  datatype Scale = UnitScale | Diagonal(x: Single, y: Single, z: Single)

  datatype Skeleton = Skeleton(bones: seq<Bone>, scale: Scale, remap: Option<seq<nat>>)

  /** The 24-byte record of one bone. */
  function InfoOf(rec: seq<uint8>): BoneInfo
    requires |rec| == BoneRecordSize
  {
    BoneInfo(Field(rec, 0, 2), Field(rec, 2, 1), Field(rec, 3, 1),
             SingleField(rec, 4), SingleField(rec, 8),
             SingleField(rec, 12), SingleField(rec, 16), SingleField(rec, 20))
  }

  /** Row of four floats at `k` of a record. */
  function RowAt(rec: seq<uint8>, k: nat): Row
    requires k + 16 <= |rec|
  {
    Row(SingleField(rec, k), SingleField(rec, k + 4), SingleField(rec, k + 8), SingleField(rec, k + 12))
  }

  function MatrixOf(rec: seq<uint8>): Matrix
    requires |rec| == MatrixSize
  {
    Matrix(RowAt(rec, 0), RowAt(rec, 16), RowAt(rec, 32), RowAt(rec, 48))
  }

  /** The bone record at `at`; a record that sticks out of the file is a short read. */
  function BoneInfoAt(data: seq<uint8>, at: nat): (r: Result<BoneInfo>)
    ensures r.Ok? <==> at + BoneRecordSize <= |data|
  {
    if |data| < at + BoneRecordSize then Err(Underrun) else Ok(InfoOf(data[at..at + BoneRecordSize]))
  }

  /** The matrix at `at`; a matrix that sticks out of the file is a short read. */
  function MatrixAt(data: seq<uint8>, at: nat): (r: Result<Matrix>)
    ensures r.Ok? <==> at + MatrixSize <= |data|
  {
    if |data| < at + MatrixSize then Err(Underrun) else Ok(MatrixOf(data[at..at + MatrixSize]))
  }

  function DiagonalOf(m: Matrix): Scale
  {
    Diagonal(m.r0.a, m.r1.b, m.r2.c)
  }

  /** Bone records, then the local matrices, then the global ones, then the remap table. */
  function LocalBase(h: Header): nat { h.boneOffset + 24 * h.boneCount }
  function GlobalBase(h: Header): nat { LocalBase(h) + 64 * h.boneCount }
  function TableBase(h: Header): nat { GlobalBase(h) + 64 * h.boneCount }
  function SkeletonEnd(h: Header): nat { TableBase(h) + RemapSize }

  /** The position of the last occurrence of `v` in `t`. */
  function LastIndex(t: seq<uint8>, v: nat): (r: Option<nat>)
    ensures r.None? <==> forall i :: 0 <= i < |t| ==> t[i] != v
    ensures r.Some? ==> r.value < |t| && t[r.value] == v && forall i :: r.value < i < |t| ==> t[i] != v
  {
    if t == [] then None
    else if t[|t| - 1] == v then Some(|t| - 1)
    else LastIndex(t[..|t| - 1], v)
  }

  /** The table entry that last named bone `v`; the byte 255 names no bone. */
  function Link(t: seq<uint8>, v: nat): Option<nat>
  {
    if v == NoBone then None else LastIndex(t, v)
  }

  /** Where the remap table sends `v`: its last mention, or `v` itself. */
  function RemapOf(t: seq<uint8>, v: nat): nat
  {
    match Link(t, v)
    case Some(i) => i
    case None => v
  }

  /**
    The 4096-entry table as the parser builds it: start from the identity and,
    for each byte in turn that is not 255, send that byte to its position.
  */
  function RemapTable(t: seq<uint8>): (r: seq<nat>)
    ensures |r| == RemapSize
  {
    if t == [] then seq(RemapSize, v => v)
    else
      var r := RemapTable(t[..|t| - 1]);
      var b := t[|t| - 1];
      if b != NoBone then r[b := |t| - 1] else r
  }

  /** The table sends every value to its last mention in the bytes, or leaves it be. */
  lemma {:induction false} RemapTableSpec(t: seq<uint8>)
    ensures forall v :: 0 <= v < RemapSize ==> RemapTable(t)[v] == RemapOf(t, v)
  {
    if t != [] {
      var s := t[..|t| - 1];
      RemapTableSpec(s);
      forall v | 0 <= v < RemapSize
        ensures RemapTable(t)[v] == RemapOf(t, v)
      {
        if t[|t| - 1] != v {
          assert LastIndex(t, v) == LastIndex(s, v);
        }
      }
    }
  }

  /** Bone record `i` of the run that starts at `base`. */
  function InfoFrom(data: seq<uint8>, base: nat): nat -> Result<BoneInfo>
  {
    (i: nat) => BoneInfoAt(data, base + 24 * i)
  }

  /** Matrix `i` of the run that starts at `base`. */
  function MatrixFrom(data: seq<uint8>, base: nat): nat -> Result<Matrix>
  {
    (i: nat) => MatrixAt(data, base + 64 * i)
  }

  /** The skeleton from its parts: bone `i` takes record, matrices and remap `i`. */
  function BuildSkeleton(infos: seq<BoneInfo>, locals: seq<Matrix>, globals: seq<Matrix>, table: seq<uint8>)
    : (s: Skeleton)
    requires 0 < |infos| == |locals| == |globals|
  {
    var n := |infos|;
    Skeleton(seq(n, i requires 0 <= i < n => Bone(i, infos[i], locals[i], globals[i], RemapOf(table, i))),
             DiagonalOf(globals[0]), Some(RemapTable(table)))
  }

  /**
    A model with bones reads every bone record, then the local matrices, then
    the global ones, then the remap table, in one run from the bone offset; a
    model without bones reads nothing and has no table and unit scale.
  */
  function ParseSkeleton(data: seq<uint8>, h: Header): (r: Result<Skeleton>)
    ensures r.Ok? ==> |r.value.bones| == h.boneCount
  {
    var n := h.boneCount;
    if n == 0 then Ok(Skeleton([], UnitScale, None))
    else
      var infos :- Collect(n, InfoFrom(data, h.boneOffset));
      var locals :- Collect(n, MatrixFrom(data, LocalBase(h)));
      var globals :- Collect(n, MatrixFrom(data, GlobalBase(h)));
      if |data| < SkeletonEnd(h) then Err(Underrun)
      else Ok(BuildSkeleton(infos, locals, globals, data[TableBase(h)..SkeletonEnd(h)]))
  }

  /** `count` records of `size` bytes from `base` are all read exactly when the last one ends in the file. */
  lemma RunFits<T>(data: seq<uint8>, base: nat, count: nat, size: nat, f: nat -> Result<T>)
    requires count > 0
    requires forall i :: f(i).Ok? <==> base + size * i + size <= |data|
    requires forall i :: f(i).Err? ==> f(i).error == Underrun
    ensures Collect(count, f).Ok? <==> base + size * count <= |data|
    ensures Collect(count, f).Err? ==> Collect(count, f).error == Underrun
  {
    CollectOkIff(count, f);
    CollectErrorIs(count, f, Underrun);
    assert base + size * (count - 1) + size == base + size * count;
    if base + size * count <= |data| {
      forall i | 0 <= i < count
        ensures base + size * i + size <= |data|
      {
        assert size * i + size <= size * count by {
          assert size * (count - i) >= size;
        }
      }
    }
  }

  /**
    The skeleton is read exactly when there are no bones or the whole run of
    records, matrices and table lies inside the file; otherwise some read is
    short.
  */
  lemma SkeletonFits(data: seq<uint8>, h: Header)
    ensures ParseSkeleton(data, h).Ok? <==> h.boneCount == 0 || SkeletonEnd(h) <= |data|
    ensures ParseSkeleton(data, h).Err? ==> ParseSkeleton(data, h).error == Underrun
  {
    var n := h.boneCount;
    if n > 0 {
      RunFits(data, h.boneOffset, n, 24, InfoFrom(data, h.boneOffset));
      RunFits(data, LocalBase(h), n, 64, MatrixFrom(data, LocalBase(h)));
      RunFits(data, GlobalBase(h), n, 64, MatrixFrom(data, GlobalBase(h)));
    }
  }

  /**
    Each bone carries its own record, matrices and index, and its remap
    agrees with the shared 4096-entry table; the scale is the diagonal of the
    first global matrix.
  */
  lemma BuildSkeletonSpec(infos: seq<BoneInfo>, locals: seq<Matrix>, globals: seq<Matrix>, table: seq<uint8>)
    requires 0 < |infos| == |locals| == |globals|
    ensures var s := BuildSkeleton(infos, locals, globals, table);
      s.remap.Some? && |s.remap.value| == RemapSize &&
      s.scale == DiagonalOf(s.bones[0].global) && s.scale != UnitScale &&
      |s.bones| == |infos| &&
      forall i :: 0 <= i < |s.bones| ==>
        s.bones[i].id == i && s.bones[i].info == infos[i] &&
        s.bones[i].local == locals[i] && s.bones[i].global == globals[i] &&
        (i < RemapSize ==> s.bones[i].remap == s.remap.value[i])
  {
    RemapTableSpec(table);
  }

  /** A skeleton with bones is built from the three collections and the table that follows them. */
  lemma SkeletonParts(data: seq<uint8>, h: Header)
    requires ParseSkeleton(data, h).Ok? && h.boneCount > 0
    ensures var n := h.boneCount;
      Collect(n, InfoFrom(data, h.boneOffset)).Ok? &&
      Collect(n, MatrixFrom(data, LocalBase(h))).Ok? &&
      Collect(n, MatrixFrom(data, GlobalBase(h))).Ok? &&
      SkeletonEnd(h) <= |data| &&
      ParseSkeleton(data, h) == Ok(BuildSkeleton(
        Collect(n, InfoFrom(data, h.boneOffset)).value,
        Collect(n, MatrixFrom(data, LocalBase(h))).value,
        Collect(n, MatrixFrom(data, GlobalBase(h))).value,
        data[TableBase(h)..SkeletonEnd(h)]))
  {
  }

  /**
    Each bone's id is its position; the table exists exactly when there are
    bones, and each bone's remap agrees with it; the scale is the first global diagonal, and the unit
    scale exactly when there are no bones.
  */
  lemma SkeletonSpec(data: seq<uint8>, h: Header)
    requires ParseSkeleton(data, h).Ok?
    ensures var s := ParseSkeleton(data, h).value;
      (s.remap.Some? <==> h.boneCount > 0) &&
      (s.scale == UnitScale <==> h.boneCount == 0) &&
      (h.boneCount > 0 ==> s.scale == DiagonalOf(s.bones[0].global)) &&
      (forall i :: 0 <= i < |s.bones| ==> s.bones[i].id == i) &&
      (s.remap.Some? ==>
        |s.remap.value| == RemapSize &&
        forall i :: 0 <= i < |s.bones| ==> i < RemapSize ==> s.bones[i].remap == s.remap.value[i])
  {
    var n := h.boneCount;
    if n > 0 {
      SkeletonParts(data, h);
      var fi, fl, fg := InfoFrom(data, h.boneOffset), MatrixFrom(data, LocalBase(h)), MatrixFrom(data, GlobalBase(h));
      BuildSkeletonSpec(Collect(n, fi).value, Collect(n, fl).value, Collect(n, fg).value, data[TableBase(h)..SkeletonEnd(h)]);
    }
  }

  /** Element `i` of a complete run of bone records is the record at `i` steps of 24 bytes. */
  lemma BoneInfosRead(data: seq<uint8>, h: Header)
    requires Collect(h.boneCount, InfoFrom(data, h.boneOffset)).Ok?
    ensures var infos := Collect(h.boneCount, InfoFrom(data, h.boneOffset)).value;
      forall i :: 0 <= i < h.boneCount ==> BoneInfoAt(data, h.boneOffset + 24 * i) == Ok(infos[i])
  {
    CollectElements(h.boneCount, InfoFrom(data, h.boneOffset));
  }

  /**
    Element `i` of a complete run of matrices is the matrix at `i` steps of
    64 bytes; with `SkeletonParts` and `BuildSkeletonSpec` this places each
    bone's local and global matrix, as `BoneInfosRead` places its record.
  */
  lemma MatricesRead(data: seq<uint8>, h: Header, base: nat)
    requires Collect(h.boneCount, MatrixFrom(data, base)).Ok?
    ensures var ms := Collect(h.boneCount, MatrixFrom(data, base)).value;
      forall i :: 0 <= i < h.boneCount ==> MatrixAt(data, base + 64 * i) == Ok(ms[i])
  {
    CollectElements(h.boneCount, MatrixFrom(data, base));
  }

  /**
    The table is not a permutation: a single byte 1 in first place sends both
    0 (never mentioned) and 1 (mentioned at position 0) to 0.
  */
  lemma RemapCollides(t: seq<uint8>)
    requires |t| == RemapSize && t[0] == 1
    requires forall i :: 0 < i < |t| ==> t[i] == NoBone
    ensures RemapTable(t)[0] == 0 && RemapTable(t)[1] == 0
  {
    RemapTableSpec(t);
    assert LastIndex(t, 0).None?;
    assert LastIndex(t, 1) == Some(0);
  }

  // ---------------------------------------------------------------------------
  // Mesh descriptors

  datatype Descriptor = Descriptor(
    shadowFlags: nat, vertCount: nat, group: nat, matIdx: nat, oriLod: nat, lod: nat,
    unkShort1: nat, blocksize: nat, unkByte3: nat, unkShort2: nat, unkShort3: nat,
    bufferOffset: nat, encoding: nat, faceSub: nat, faceCount: nat, unkInt1: nat,
    unkShort4: nat, unkShort45: nat, unkShort5: nat, unkShort6: nat,
    unkInt2: nat, unkInt3: nat, unkInt4: nat)

  /** The level of detail a raw byte stands for; unknown bytes are level 0. */
  function LodOf(raw: nat): (lod: nat)
    ensures lod <= 4
    ensures lod == 4 <==> raw == NoLod
    ensures lod == 3 <==> raw == 0x7f
    ensures raw !in {0x01, 0x02, 0x0C, 0x81, 0x82, 0x8c, 0x7f, 0xff} ==> lod == 0
  {
    if raw == 0x01 || raw == 0x81 then 0
    else if raw == 0x02 || raw == 0x82 then 1
    else if raw == 0x0C || raw == 0x8c then 2
    else if raw == 0x7f then 3
    else if raw == 0xff then 4
    else 0
  }

  /** The 56-byte descriptor record; the material index is the raw short over 16. */
  function DescriptorOf(rec: seq<uint8>): Descriptor
    requires |rec| == DescriptorSize
  {
    Descriptor(Field(rec, 0, 2), Field(rec, 2, 2), Field(rec, 4, 1), Field(rec, 5, 2) / 16,
               Field(rec, 7, 1), LodOf(Field(rec, 7, 1)),
               Field(rec, 8, 2), Field(rec, 10, 1), Field(rec, 11, 1), Field(rec, 12, 2), Field(rec, 14, 2),
               Field(rec, 16, 4), Field(rec, 20, 4), Field(rec, 24, 4), Field(rec, 28, 4), Field(rec, 32, 4),
               Field(rec, 36, 2), Field(rec, 38, 2), Field(rec, 40, 2), Field(rec, 42, 2),
               Field(rec, 44, 4), Field(rec, 48, 4), Field(rec, 52, 4))
  }

  function DescriptorAt(data: seq<uint8>, base: nat): (r: Result<Descriptor>)
    ensures r.Ok? <==> base + DescriptorSize <= |data|
  {
    if |data| < base + DescriptorSize then Err(Underrun)
    else Ok(DescriptorOf(data[base..base + DescriptorSize]))
  }

  function DescriptorFrom(data: seq<uint8>, h: Header): nat -> Result<Descriptor>
  {
    (i: nat) => DescriptorAt(data, h.meshOffset + 0x38 * i)
  }

  function Descriptors(data: seq<uint8>, h: Header): Result<seq<Descriptor>>
  {
    Collect(h.meshCount, DescriptorFrom(data, h))
  }

  /** Some mesh has levels of detail. */
  predicate HasLod(descs: seq<Descriptor>)
  {
    exists i :: 0 <= i < |descs| && descs[i].oriLod != NoLod
  }

  lemma HasLodSnoc(descs: seq<Descriptor>, d: Descriptor)
    ensures HasLod(descs + [d]) <==> HasLod(descs) || d.oriLod != NoLod
  {
    var s := descs + [d];
    assert s[|descs|] == d;
    assert forall i :: 0 <= i < |descs| ==> s[i] == descs[i];
  }

  // ---------------------------------------------------------------------------
  // Meshes

  datatype Mesh = Mesh(
    lod: nat, id: nat,
    positions: seq<seq<int>>, faces: seq<Tri>,
    normals: Option<seq<seq<int>>>, uv1: Option<seq<seq<int>>>, uv2: Option<seq<seq<int>>>,
    weightNames: Option<seq<seq<nat>>>, weightValues: Option<seq<seq<real>>>,
    colors: Option<seq<seq<int>>>,
    group: nat, scale: Scale, material: string, materialHash: bv32)

  /** The vertex block of a mesh: `blocksize` bytes per vertex, extra vertices included. */
  function VertexBytes(data: seq<uint8>, h: Header, d: Descriptor): seq<uint8>
  {
    var start := h.vbufferOffset + d.bufferOffset + d.unkInt1 * d.blocksize;
    PySlice(data, start, start + d.blocksize * (d.vertCount + d.unkShort2))
  }

  /** The face strip of a mesh: `faceCount` 16-bit indices from `faceSub`. */
  function FaceBytes(data: seq<uint8>, h: Header, d: Descriptor): seq<uint8>
  {
    var start := h.fbufferOffset + d.faceSub * 2;
    PySlice(data, start, start + d.faceCount * 2)
  }

  /** `a[used]` of an optional array. */
  function GatherOpt<T>(a: Option<seq<T>>, idx: seq<nat>): (r: Result<Option<seq<T>>>)
    ensures r.Ok? <==> a.None? || forall i :: 0 <= i < |idx| ==> idx[i] < |a.value|
    ensures r.Err? ==> r.error == IndexOutOfRange
    ensures r.Ok? ==> (r.value.Some? <==> a.Some?)
    ensures r.Ok? && r.value.Some? ==>
      |r.value.value| == |idx| && forall i :: 0 <= i < |idx| ==> r.value.value[i] == a.value[idx[i]]
  {
    if a.None? then Ok(None)
    else
      var g :- Gather(a.value, idx);
      Ok(Some(g))
  }

  function SkinNames(s: Option<Skinning>): Option<seq<seq<nat>>>
  {
    if s.Some? then Some(s.value.names) else None
  }

  function SkinWeights(s: Option<Skinning>): Option<seq<seq<real>>>
  {
    if s.Some? then Some(s.value.weights) else None
  }

  /** The rows of the vertices the faces use, in the order of `used`. */
  datatype Selection = Selection(
    positions: seq<seq<int>>,
    normals: Option<seq<seq<int>>>, uv1: Option<seq<seq<int>>>, uv2: Option<seq<seq<int>>>,
    names: Option<seq<seq<nat>>>, weights: Option<seq<seq<real>>>,
    colors: Option<seq<seq<int>>>)

  /**
    `arr[uffaces]` for every array present, in the order the parser takes
    them; an index past the vertex rows raises IndexError, and so does the
    flip of UV column 1 of a UV array narrower than two columns.
  */
  function Select(arrays: Arrays, used: seq<nat>): (r: Result<Selection>)
    ensures r.Err? ==> r.error == IndexOutOfRange
    ensures r.Ok? ==> (arrays.uv1.Some? ==> arrays.uv1Width >= 2) && (arrays.uv2.Some? ==> arrays.uv2Width >= 2)
    ensures r.Ok? ==>
      |r.value.positions| == |used| &&
      (forall i :: 0 <= i < |used| ==> used[i] < |arrays.positions| && r.value.positions[i] == arrays.positions[used[i]]) &&
      RowsMatch(r.value.normals, |used|) && RowsMatch(r.value.uv1, |used|) &&
      RowsMatch(r.value.uv2, |used|) && RowsMatch(r.value.colors, |used|) &&
      RowsMatch(r.value.names, |used|) && RowsMatch(r.value.weights, |used|) &&
      (r.value.names.Some? <==> arrays.skin.Some?) && (r.value.weights.Some? <==> arrays.skin.Some?) &&
      (r.value.weights.Some? ==>
         forall i :: 0 <= i < |used| ==>
           used[i] < |arrays.skin.value.weights| && r.value.weights.value[i] == arrays.skin.value.weights[used[i]])
  {
    var positions :- Gather(arrays.positions, used);
    var normals :- GatherOpt(arrays.normals, used);
    var uv1 :- GatherOpt(arrays.uv1, used);
    if arrays.uv1.Some? && arrays.uv1Width < 2 then Err(IndexOutOfRange) else
    var uv2 :- GatherOpt(arrays.uv2, used);
    if arrays.uv2.Some? && arrays.uv2Width < 2 then Err(IndexOutOfRange) else
    var names :- GatherOpt(SkinNames(arrays.skin), used);
    var weights :- GatherOpt(SkinWeights(arrays.skin), used);
    var colors :- GatherOpt(arrays.colors, used);
    Ok(Selection(positions, normals, uv1, uv2, names, weights, colors))
  }

  /**
    Everything after the vertex arrays: decode the face strips, keep the
    vertices the faces use (in ascending order), number the faces into that
    selection and look up the material.
  */
  function Assemble(arrays: Arrays, fb: seq<uint8>, d: Descriptor, id: nat, lod: nat,
                    mats: seq<string>, scale: Scale): Result<Mesh>
  {
    var faces :- Faces(fb);
    var used := Used(faces);
    var s :- Select(arrays, used);
    if d.matIdx >= |mats| then Err(IndexOutOfRange)
    else
      var material := mats[d.matIdx];
      Ok(Mesh(lod, id, s.positions, Reindex(faces, used), s.normals, s.uv1, s.uv2, s.names, s.weights, s.colors,
              d.group, scale, material, MaterialNameHash(material)))
  }

  /** Mesh `id`: skipped for an ignored or unknown encoding, decoded otherwise. */
  function MeshOf(data: seq<uint8>, h: Header, sk: Skeleton, mats: seq<string>,
                  id: nat, d: Descriptor, hasLod: bool, dec: Decoder): Result<Option<Mesh>>
  {
    match LayoutOf(d.encoding)
    case Decode(l) =>
      var arrays :- Prepare(l, d.blocksize, VertexBytes(data, h, d), sk.remap, dec);
      var m :- Assemble(arrays, FaceBytes(data, h, d), d, id, if hasLod then d.lod else 0, mats, sk.scale);
      Ok(Some(m))
    case _ => Ok(None)
  }

  /** Mesh `i` of the descriptors; nothing past their end. */
  function MeshFrom(data: seq<uint8>, h: Header, sk: Skeleton, mats: seq<string>,
                    descs: seq<Descriptor>, hasLod: bool, dec: Decoder): nat -> Result<Option<Mesh>>
  {
    (i: nat) => if i < |descs| then MeshOf(data, h, sk, mats, i, descs[i], hasLod, dec) else Ok(None)
  }

  /** The meshes among `f(0), ..., f(n-1)`, in order; the first failure ends the parse. */
  function Present(n: nat, f: nat -> Result<Option<Mesh>>): Result<seq<Mesh>>
  {
    if n == 0 then Ok([])
    else
      var prev :- Present(n - 1, f);
      var m :- f(n - 1);
      Ok(if m.Some? then prev + [m.value] else prev)
  }

  lemma {:induction false} PresentSticky(i: nat, n: nat, f: nat -> Result<Option<Mesh>>)
    requires i <= n && Present(i, f).Err?
    ensures Present(n, f) == Present(i, f)
    decreases n - i
  {
    if i < n {
      PresentSticky(i, n - 1, f);
    }
  }

  lemma PresentStep(i: nat, f: nat -> Result<Option<Mesh>>, ms: seq<Mesh>)
    requires Present(i, f) == Ok(ms) && f(i).Ok?
    ensures Present(i + 1, f) == Ok(if f(i).value.Some? then ms + [f(i).value.value] else ms)
  {
  }

  lemma PresentFails(i: nat, n: nat, f: nat -> Result<Option<Mesh>>)
    requires i < n && Present(i, f).Ok? && f(i).Err?
    ensures Present(n, f) == Err(f(i).error)
  {
    PresentSticky(i + 1, n, f);
  }

  /**
    The fold keeps exactly the meshes that exist, in order: every step before
    `n` succeeded, each kept mesh is the one its step made, and every step
    that made a mesh is kept.
  */
  lemma {:induction false} PresentSpec(n: nat, f: nat -> Result<Option<Mesh>>)
    requires Present(n, f).Ok?
    requires forall i :: 0 <= i < n && f(i).Ok? && f(i).value.Some? ==> f(i).value.value.id == i
    ensures var ms := Present(n, f).value;
      (forall i :: 0 <= i < n ==> f(i).Ok?) &&
      (forall j :: 0 <= j < |ms| ==> ms[j].id < n && f(ms[j].id) == Ok(Some(ms[j]))) &&
      (forall j, k :: 0 <= j < k < |ms| ==> ms[j].id < ms[k].id) &&
      (forall i :: 0 <= i < n && f(i).Ok? && f(i).value.Some? ==> exists j :: 0 <= j < |ms| && ms[j].id == i)
  {
    if n > 0 {
      PresentSpec(n - 1, f);
      var prev := Present(n - 1, f).value;
      var m := f(n - 1).value;
      var ms := Present(n, f).value;
      assert ms == if m.Some? then prev + [m.value] else prev;
      forall i | 0 <= i < n && f(i).Ok? && f(i).value.Some?
        ensures exists j :: 0 <= j < |ms| && ms[j].id == i
      {
        if i < n - 1 {
          var j :| 0 <= j < |prev| && prev[j].id == i;
          assert ms[j] == prev[j];
        } else {
          assert ms[|prev|] == m.value;
        }
      }
    }
  }

  datatype Model = Model(bones: seq<Bone>, meshes: seq<Mesh>)

  /** `ModParser.read`: header, names, skeleton, descriptors, then the meshes. */
  function ParseMod(data: seq<uint8>, dec: Decoder): Result<Model>
  {
    var h :- ParseHeader(data);
    var mats :- Materials(data, h);
    var sk :- ParseSkeleton(data, h);
    var descs :- Descriptors(data, h);
    var meshes :- Present(|descs|, MeshFrom(data, h, sk, mats, descs, HasLod(descs), dec));
    Ok(Model(sk.bones, meshes))
  }

  // ---------------------------------------------------------------------------
  // Properties of the decoded meshes

  predicate RowsMatch<T>(a: Option<seq<T>>, n: nat)
  {
    a.Some? ==> |a.value| == n
  }

  /**
    A decoded mesh is self-consistent: every face has three distinct corners,
    each a valid position; every per-vertex array has one row per position;
    bone names and weights come together; the hash is the material's.
  */
  predicate Coherent(m: Mesh)
  {
    (forall i :: 0 <= i < |m.faces| ==>
       Proper(m.faces[i]) &&
       m.faces[i].a < |m.positions| && m.faces[i].b < |m.positions| && m.faces[i].c < |m.positions|) &&
    RowsMatch(m.normals, |m.positions|) && RowsMatch(m.uv1, |m.positions|) &&
    RowsMatch(m.uv2, |m.positions|) && RowsMatch(m.colors, |m.positions|) &&
    RowsMatch(m.weightNames, |m.positions|) && RowsMatch(m.weightValues, |m.positions|) &&
    (m.weightNames.Some? <==> m.weightValues.Some?) &&
    m.materialHash == MaterialNameHash(m.material)
  }

  /**
    Assembling a mesh keeps the geometry: the mesh is coherent, its material
    is the descriptor's, and each new face names, through the selection, the
    same vertices as the strip it came from.
  */
  lemma AssembleSpec(arrays: Arrays, fb: seq<uint8>, d: Descriptor, id: nat, lod: nat,
                     mats: seq<string>, scale: Scale)
    requires Assemble(arrays, fb, d, id, lod, mats, scale).Ok?
    ensures var m := Assemble(arrays, fb, d, id, lod, mats, scale).value;
      Coherent(m) && d.matIdx < |mats| && m.material == mats[d.matIdx] &&
      m.id == id && m.lod == lod && m.group == d.group && m.scale == scale &&
      (arrays.uv1.Some? ==> arrays.uv1Width >= 2) && (arrays.uv2.Some? ==> arrays.uv2Width >= 2) &&
      Faces(fb).Ok? && |m.faces| == |Faces(fb).value| &&
      forall i :: 0 <= i < |m.faces| ==>
        var t := Faces(fb).value[i];
        t.a < |arrays.positions| && t.b < |arrays.positions| && t.c < |arrays.positions| &&
        m.positions[m.faces[i].a] == arrays.positions[t.a] &&
        m.positions[m.faces[i].b] == arrays.positions[t.b] &&
        m.positions[m.faces[i].c] == arrays.positions[t.c]
  {
    var faces := Faces(fb).value;
    var used := Used(faces);
    var sel := Select(arrays, used).value;
    var r := Reindex(faces, used);
    var m := Assemble(arrays, fb, d, id, lod, mats, scale).value;
    assert m.positions == sel.positions && m.faces == r;
    FacesSpec(fb);
    ReindexInverts(faces);
    forall i | 0 <= i < |r|
      ensures Proper(r[i])
      ensures r[i].a < |sel.positions| && r[i].b < |sel.positions| && r[i].c < |sel.positions|
      ensures sel.positions[r[i].a] == arrays.positions[faces[i].a]
      ensures sel.positions[r[i].b] == arrays.positions[faces[i].b]
      ensures sel.positions[r[i].c] == arrays.positions[faces[i].c]
    {
      assert faces[i] in faces;
    }
  }

  /**
    Once the face strips decode, a UV array narrower than two columns makes
    the mesh fail with IndexError, whichever selection or lookup fails first.
  */
  lemma AssembleNarrowUv(arrays: Arrays, fb: seq<uint8>, d: Descriptor, id: nat, lod: nat,
                         mats: seq<string>, scale: Scale)
    requires Faces(fb).Ok?
    requires (arrays.uv1.Some? && arrays.uv1Width < 2) || (arrays.uv2.Some? && arrays.uv2Width < 2)
    ensures Assemble(arrays, fb, d, id, lod, mats, scale) == Err(IndexOutOfRange)
  {
    var s := Select(arrays, Used(Faces(fb).value));
    assert s.Err?;
  }

  /**
    A descriptor yields a mesh exactly when its encoding decodes; the mesh is
    coherent and carries the descriptor's id, level and group and the
    model's scale.
  */
  lemma MeshOfSpec(data: seq<uint8>, h: Header, sk: Skeleton, mats: seq<string>,
                   id: nat, d: Descriptor, hasLod: bool, dec: Decoder)
    requires MeshOf(data, h, sk, mats, id, d, hasLod, dec).Ok?
    ensures var m := MeshOf(data, h, sk, mats, id, d, hasLod, dec).value;
      (m.Some? <==> LayoutOf(d.encoding).Decode?) &&
      (m.Some? ==>
         Coherent(m.value) && m.value.id == id && m.value.group == d.group && m.value.scale == sk.scale &&
         m.value.lod == (if hasLod then d.lod else 0) && d.matIdx < |mats| && m.value.material == mats[d.matIdx])
  {
    if LayoutOf(d.encoding).Decode? {
      var l := LayoutOf(d.encoding).layout;
      var arrays := Prepare(l, d.blocksize, VertexBytes(data, h, d), sk.remap, dec).value;
      AssembleSpec(arrays, FaceBytes(data, h, d), d, id, if hasLod then d.lod else 0, mats, sk.scale);
    }
  }

  /** Every weight row of a blended mesh sums to one; every single-bone weight is one. */
  lemma MeshWeights(data: seq<uint8>, h: Header, sk: Skeleton, mats: seq<string>,
                    id: nat, d: Descriptor, hasLod: bool, dec: Decoder)
    requires LayoutOf(d.encoding).Decode? && LayoutOf(d.encoding).layout.skin.Some?
    requires MeshOf(data, h, sk, mats, id, d, hasLod, dec).Ok?
    ensures var m := MeshOf(data, h, sk, mats, id, d, hasLod, dec).value;
      m.Some? && m.value.weightValues.Some? &&
      (LayoutOf(d.encoding).layout.skin.value.Blend? ==>
         forall i :: 0 <= i < |m.value.weightValues.value| ==> Sum(m.value.weightValues.value[i]) == 1.0) &&
      (LayoutOf(d.encoding).layout.skin.value.Rigid? ==>
         forall i, j :: 0 <= i < |m.value.weightValues.value| && 0 <= j < |m.value.weightValues.value[i]| ==>
           m.value.weightValues.value[i][j] == 1.0)
  {
    var l := LayoutOf(d.encoding).layout;
    var b := VertexBytes(data, h, d);
    var arrays := Prepare(l, d.blocksize, b, sk.remap, dec).value;
    WeightsSumToOne(l, d.blocksize, b, sk.remap, dec);
    var used := Used(Faces(FaceBytes(data, h, d)).value);
    var sel := Select(arrays, used).value;
    var m := Assemble(arrays, FaceBytes(data, h, d), d, id, if hasLod then d.lod else 0, mats, sk.scale).value;
    assert m.weightValues == sel.weights;
  }

  /**
    The meshes of a model come one per descriptor whose encoding decodes, in
    descriptor order; each is coherent and carries its descriptor's level of
    detail (0 when no mesh of the model has levels) and the model's scale.
  */
  lemma MeshesSpec(data: seq<uint8>, dec: Decoder)
    requires ParseMod(data, dec).Ok?
    ensures var h := ParseHeader(data).value;
      var descs := Descriptors(data, h).value;
      var ms := ParseMod(data, dec).value.meshes;
      |descs| == h.meshCount &&
      (forall j :: 0 <= j < |ms| ==>
         ms[j].id < |descs| && LayoutOf(descs[ms[j].id].encoding).Decode? &&
         Coherent(ms[j]) && ms[j].scale == ParseSkeleton(data, h).value.scale &&
         ms[j].lod == (if HasLod(descs) then descs[ms[j].id].lod else 0)) &&
      (forall j, k :: 0 <= j < k < |ms| ==> ms[j].id < ms[k].id) &&
      (forall i :: 0 <= i < |descs| && LayoutOf(descs[i].encoding).Decode? ==>
         exists j :: 0 <= j < |ms| && ms[j].id == i)
  {
    var h := ParseHeader(data).value;
    var mats := Materials(data, h).value;
    var sk := ParseSkeleton(data, h).value;
    var descs := Descriptors(data, h).value;
    var f := MeshFrom(data, h, sk, mats, descs, HasLod(descs), dec);
    var ms := Present(|descs|, f).value;
    assert ms == ParseMod(data, dec).value.meshes;
    forall i | 0 <= i < |descs| && f(i).Ok?
      ensures f(i).value.Some? <==> LayoutOf(descs[i].encoding).Decode?
      ensures f(i).value.Some? ==>
        f(i).value.value.id == i && Coherent(f(i).value.value) && f(i).value.value.scale == sk.scale &&
        f(i).value.value.lod == (if HasLod(descs) then descs[i].lod else 0)
    {
      MeshOfSpec(data, h, sk, mats, i, descs[i], HasLod(descs), dec);
    }
    PresentSpec(|descs|, f);
  }

  /** Without any mesh that has levels of detail, every mesh is level 0. */
  lemma NoLodLevelZero(data: seq<uint8>, dec: Decoder)
    requires ParseMod(data, dec).Ok?
    requires forall i :: 0 <= i < |Descriptors(data, ParseHeader(data).value).value| ==>
      Descriptors(data, ParseHeader(data).value).value[i].oriLod == NoLod
    ensures forall m :: m in ParseMod(data, dec).value.meshes ==> m.lod == 0
  {
    MeshesSpec(data, dec);
  }
}
